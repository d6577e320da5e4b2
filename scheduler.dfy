/** The dependency-aware scheduler: a Kahn topological sort followed by
    day-granular date assignment and the overall span of the batch. */
module Scheduler {
  import opened Tasks

  /** Overall span of a scheduled batch. */
  datatype Span = Span(startDate: Day, endDate: Day, totalDays: int)

  /** The tasks, in input order and dated, with the span of the batch.
      The span is absent for an empty batch, where the service reports
      undefined dates and a NaN day count. */
  datatype Schedule = Schedule(tasks: seq<Task>, span: Option<Span>)

  /** Either a schedule, or the error "Cyclic dependency detected in tasks". */
  datatype Outcome = Scheduled(schedule: Schedule) | CyclicDependency

  /** Whole days a task occupies: its duration, raised to at least 1. */
  function Length(t: Task): (n: int)
    ensures n >= 1 && n >= t.durationDays
    ensures t.durationDays >= 1 ==> n == t.durationDays
  {
    if t.durationDays < 1 then 1 else t.durationDays
  }

  predicate Dated(t: Task) {
    t.startDate.Some? && t.endDate.Some?
  }

  function Start(t: Task): Day
    requires Dated(t)
  {
    t.startDate.value
  }

  function End(t: Task): Day
    requires Dated(t)
  {
    t.endDate.value
  }

  predicate AllDated(rs: seq<Task>) {
    forall k :: 0 <= k < |rs| ==> Dated(rs[k])
  }

  // ---------------------------------------------------------------------
  // What a valid batch is
  // ---------------------------------------------------------------------

  /** Every dependency list names tasks of the batch, each at most once. */
  predicate DepsWellFormed(ts: seq<Task>) {
    forall i :: 0 <= i < |ts| ==>
      NoDup(ts[i].dependsOnIds) && Elems(ts[i].dependsOnIds) <= Elems(Ids(ts))
  }

  /** Every task of the batch that `order` lists before position `n` has
      its dependencies listed before itself. */
  ghost predicate DepsBefore(ts: seq<Task>, order: seq<Id>, n: int) {
    forall p, k :: 0 <= p < n && p < |order| && 0 <= k < |ts| && ts[k].id == order[p] ==>
      Elems(ts[k].dependsOnIds) <= Elems(order[..p])
  }

  /** `order` lists every task of the batch once, each after all of its
      dependencies. */
  ghost predicate IsTopologicalOrder(ts: seq<Task>, order: seq<Id>) {
    && |order| == |ts|
    && NoDup(order)
    && Elems(order) == Elems(Ids(ts))
    && DepsBefore(ts, order, |order|)
  }

  /** The batches the scheduler accepts: well-formed dependency lists and
      an acyclic dependency relation. */
  ghost predicate Schedulable(ts: seq<Task>) {
    DepsWellFormed(ts) && exists order :: IsTopologicalOrder(ts, order)
  }

  // ---------------------------------------------------------------------
  // What a correct schedule is
  // ---------------------------------------------------------------------

  /** Task `i` starts no earlier than the batch start, after every one of
      its dependencies has ended, and on the batch start or on the end
      date of one of its dependencies: the later of the batch start and
      the latest dependency end. */
  ghost predicate StartRule(ts: seq<Task>, batchStart: Day, rs: seq<Task>, i: int)
    requires |rs| == |ts| && AllDated(rs) && 0 <= i < |ts|
  {
    && Start(rs[i]) >= batchStart
    && (forall j :: 0 <= j < |ts| && ts[j].id in ts[i].dependsOnIds ==>
          End(rs[j]) <= Start(rs[i]))
    && (Start(rs[i]) == batchStart ||
        exists j :: 0 <= j < |ts| && ts[j].id in ts[i].dependsOnIds && Start(rs[i]) == End(rs[j]))
  }

  /** `rs` is `ts`, in the same order, with dates filled in: each end is
      the start plus the task's length, and each start obeys StartRule. */
  ghost predicate ScheduledFrom(ts: seq<Task>, batchStart: Day, rs: seq<Task>) {
    && |rs| == |ts|
    && AllDated(rs)
    && (forall i :: 0 <= i < |ts| ==>
          rs[i] == ts[i].(startDate := rs[i].startDate, endDate := rs[i].endDate))
    && (forall i :: 0 <= i < |ts| ==> End(rs[i]) == Start(rs[i]) + Length(ts[i]))
    && (forall i :: 0 <= i < |ts| ==> StartRule(ts, batchStart, rs, i))
  }

  /** Earliest start date, scanned left to right as the service's reduce does. */
  function MinStart(rs: seq<Task>): (m: Day)
    requires |rs| > 0 && AllDated(rs)
    ensures forall k :: 0 <= k < |rs| ==> m <= Start(rs[k])
    ensures exists k :: 0 <= k < |rs| && m == Start(rs[k])
  {
    if |rs| == 1 then Start(rs[0])
    else
      var m := MinStart(rs[..|rs| - 1]);
      if Start(rs[|rs| - 1]) < m then Start(rs[|rs| - 1]) else m
  }

  /** Latest end date, scanned left to right as the service's reduce does. */
  function MaxEnd(rs: seq<Task>): (m: Day)
    requires |rs| > 0 && AllDated(rs)
    ensures forall k :: 0 <= k < |rs| ==> End(rs[k]) <= m
    ensures exists k :: 0 <= k < |rs| && m == End(rs[k])
  {
    if |rs| == 1 then End(rs[0])
    else
      var m := MaxEnd(rs[..|rs| - 1]);
      if End(rs[|rs| - 1]) > m then End(rs[|rs| - 1]) else m
  }

  function SpanOf(rs: seq<Task>): Option<Span>
    requires AllDated(rs)
  {
    if |rs| == 0 then None
    else Some(Span(MinStart(rs), MaxEnd(rs), MaxEnd(rs) - MinStart(rs)))
  }

  // ---------------------------------------------------------------------
  // The scheduler
  // ---------------------------------------------------------------------

  /** Dependency entries of `t` still waiting once `placed` are placed. */
  ghost function Pending(placed: seq<Id>, t: Task): int {
    |t.dependsOnIds| - |Elems(placed) * Elems(t.dependsOnIds)|
  }

  /** State of the Kahn loop: `sorted` holds the tasks already placed,
      `queue` those whose in-degree has reached zero and that wait to be
      placed; each in-degree counts the dependency entries not yet placed. */
  ghost predicate KahnInv(ts: seq<Task>, indegree: map<Id, int>, queue: seq<Id>, sorted: seq<Id>) {
    && (forall k :: 0 <= k < |ts| ==> ts[k].id in indegree)
    && NoDup(sorted + queue)
    && Elems(sorted + queue) <= Elems(Ids(ts))
    && (forall k :: 0 <= k < |ts| ==> indegree[ts[k].id] == Pending(sorted, ts[k]))
    && (forall k :: 0 <= k < |ts| ==> (ts[k].id in sorted + queue <==> indegree[ts[k].id] == 0))
    && DepsBefore(ts, sorted, |sorted|)
  }

  /** A distinct sequence drawn from the batch's ids is no longer than the batch. */
  lemma DistinctIdsBound(ts: seq<Task>, s: seq<Id>)
    requires DistinctIds(ts) && NoDup(s) && Elems(s) <= Elems(Ids(ts))
    ensures |s| <= |ts|
    ensures |s| == |ts| ==> Elems(s) == Elems(Ids(ts))
  {
    ElemsCard(s);
    ElemsCard(Ids(ts));
    SubsetCard(Elems(s), Elems(Ids(ts)));
  }

  /** The head of the queue is a task of the batch, not yet placed, whose
      dependencies are all placed: its in-degree is zero. */
  lemma QueueHeadReady(ts: seq<Task>, indegree: map<Id, int>, queue: seq<Id>, sorted: seq<Id>)
    returns (kx: int)
    requires DistinctIds(ts) && KahnInv(ts, indegree, queue, sorted) && |queue| > 0
    ensures 0 <= kx < |ts| && ts[kx].id == queue[0]
    ensures queue[0] !in sorted
    ensures Elems(ts[kx].dependsOnIds) <= Elems(sorted)
  {
    var x := queue[0];
    assert x in sorted + queue;
    forall i | 0 <= i < |sorted| ensures sorted[i] != x {
      assert (sorted + queue)[i] == sorted[i] && (sorted + queue)[|sorted|] == x;
    }
    assert x in Elems(Ids(ts));
    kx :| 0 <= kx < |ts| && Ids(ts)[kx] == x;
    OverlapCard(Elems(sorted), ts[kx].dependsOnIds);
  }

  /** Placing the head of the queue keeps every placed task after its
      dependencies: its in-degree is zero, so all its dependencies are placed. */
  lemma PlaceHead(ts: seq<Task>, indegree: map<Id, int>, queue: seq<Id>, sorted: seq<Id>)
    requires DistinctIds(ts) && KahnInv(ts, indegree, queue, sorted) && |queue| > 0
    ensures |sorted| < |ts|
    ensures DepsBefore(ts, sorted + [queue[0]], |sorted| + 1)
    ensures sorted + [queue[0]] + queue[1..] == sorted + queue
    ensures queue[0] !in sorted
  {
    DistinctIdsBound(ts, sorted + queue);
    var kx := QueueHeadReady(ts, indegree, queue, sorted);
    var s1 := sorted + [queue[0]];
    forall p, k | 0 <= p < |s1| && 0 <= k < |ts| && ts[k].id == s1[p]
      ensures Elems(ts[k].dependsOnIds) <= Elems(s1[..p])
    {
      if p < |sorted| {
        assert s1[..p] == sorted[..p];
      } else {
        assert k == kx;
        assert s1[..p] == sorted;
      }
    }
  }

  /** One decrement of the forEach over the batch, after placing `x`. */
  lemma Decrement(ts: seq<Task>, sorted0: seq<Id>, x: Id, j: int, old_deg: int)
    requires 0 <= j < |ts| && x !in sorted0 && x in ts[j].dependsOnIds
    requires old_deg == Pending(sorted0, ts[j])
    ensures old_deg - 1 == Pending(sorted0 + [x], ts[j])
    ensures old_deg != 0
  {
    var e := Elems(ts[j].dependsOnIds);
    assert Elems(sorted0 + [x]) == Elems(sorted0) + {x};
    assert Elems(sorted0 + [x]) * e == (Elems(sorted0) * e) + {x};
    OverlapCard(Elems(sorted0), ts[j].dependsOnIds);
  }

  /** When the queue runs dry with every task placed, the placement order
      is a topological order and every dependency list is well formed. */
  lemma KahnDone(ts: seq<Task>, indegree: map<Id, int>, sorted: seq<Id>)
    requires DistinctIds(ts) && KahnInv(ts, indegree, [], sorted) && |sorted| == |ts|
    ensures IsTopologicalOrder(ts, sorted)
    ensures DepsWellFormed(ts)
  {
    assert sorted + [] == sorted;
    DistinctIdsBound(ts, sorted);
    forall i | 0 <= i < |ts|
      ensures NoDup(ts[i].dependsOnIds) && Elems(ts[i].dependsOnIds) <= Elems(Ids(ts))
    {
      assert ts[i].id == Ids(ts)[i];
      assert ts[i].id in Elems(sorted);
      OverlapCard(Elems(sorted), ts[i].dependsOnIds);
    }
  }

  /** The first entry of `w` outside `s`, when `w` has one. */
  lemma FirstOutside(w: seq<Id>, s: seq<Id>) returns (p: int)
    requires !(Elems(w) <= Elems(s))
    ensures 0 <= p < |w| && w[p] !in s && Elems(w[..p]) <= Elems(s)
  {
    p := 0;
    while p < |w| && w[p] in s
      invariant 0 <= p <= |w|
      invariant Elems(w[..p]) <= Elems(s)
    {
      assert w[..p + 1] == w[..p] + [w[p]];
      p := p + 1;
    }
  }

  /** Kahn's loop places every task of a batch with well-formed
      dependency lists and a topological order `w`: otherwise the first
      task of `w` left unplaced has all its dependencies placed, hence
      in-degree zero, hence was queued and placed after all. */
  lemma KahnComplete(ts: seq<Task>, indegree: map<Id, int>, sorted: seq<Id>, w: seq<Id>)
    requires DistinctIds(ts) && KahnInv(ts, indegree, [], sorted)
    requires DepsWellFormed(ts) && IsTopologicalOrder(ts, w)
    ensures |sorted| == |ts|
  {
    assert sorted + [] == sorted;
    DistinctIdsBound(ts, sorted);
    if |sorted| != |ts| {
      if Elems(w) <= Elems(sorted) {
        assert NoDup(Ids(ts));
        ElemsCard(Ids(ts));
        ElemsCard(sorted);
        SubsetCard(Elems(Ids(ts)), Elems(sorted));
        assert false;
      }
      var p := FirstOutside(w, sorted);
      assert w[p] in Elems(Ids(ts));
      var k :| 0 <= k < |ts| && Ids(ts)[k] == w[p];
      assert Elems(ts[k].dependsOnIds) <= Elems(w[..p]);
      OverlapCard(Elems(sorted), ts[k].dependsOnIds);
      assert false;
    }
  }

  /** When the queue runs dry with a task left unplaced, no topological
      order exists or some dependency list is malformed. */
  lemma KahnStuck(ts: seq<Task>, indegree: map<Id, int>, sorted: seq<Id>)
    requires DistinctIds(ts) && KahnInv(ts, indegree, [], sorted) && |sorted| != |ts|
    ensures !Schedulable(ts)
  {
    if Schedulable(ts) {
      var w :| IsTopologicalOrder(ts, w);
      KahnComplete(ts, indegree, sorted, w);
    }
  }

  /** The date loop's state after dating the first `n` placed tasks: the
      dated ones carry dates obeying the scheduling rule, the others are
      still the input copies. */
  ghost predicate DateInv(ts: seq<Task>, batchStart: Day, sorted: seq<Id>, n: int,
                          idToTask: map<Id, Task>, idToStart: map<Id, Day>, idToEnd: map<Id, Day>)
    requires 0 <= n <= |sorted|
  {
    && (forall m :: 0 <= m < |ts| ==> ts[m].id in idToTask)
    && idToStart.Keys == Elems(sorted[..n])
    && idToEnd.Keys == Elems(sorted[..n])
    && (forall m :: 0 <= m < |ts| && ts[m].id !in idToEnd ==> idToTask[ts[m].id] == ts[m])
    && (forall m :: 0 <= m < |ts| && ts[m].id in idToEnd ==> DatedEntry(ts[m], batchStart, idToTask, idToStart, idToEnd))
  }

  ghost predicate DatedEntry(t: Task, batchStart: Day,
                             idToTask: map<Id, Task>, idToStart: map<Id, Day>, idToEnd: map<Id, Day>)
  {
    && t.id in idToTask && t.id in idToStart && t.id in idToEnd
    && idToTask[t.id] == t.(startDate := Some(idToStart[t.id]), endDate := Some(idToEnd[t.id]))
    && idToEnd[t.id] == idToStart[t.id] + Length(t)
    && idToStart[t.id] >= batchStart
    && (forall d :: d in t.dependsOnIds ==> d in idToEnd && idToEnd[d] <= idToStart[t.id])
    && (idToStart[t.id] == batchStart ||
        exists d :: d in t.dependsOnIds && d in idToEnd && idToStart[t.id] == idToEnd[d])
  }

  /** Adding a new end date keeps every earlier dated entry valid. */
  lemma DatedEntryGrows(t: Task, batchStart: Day, idToTask: map<Id, Task>, idToStart: map<Id, Day>,
                        idToEnd: map<Id, Day>, x: Id, t': Task, s: Day, e: Day)
    requires DatedEntry(t, batchStart, idToTask, idToStart, idToEnd)
    requires x !in idToEnd && x !in idToStart
    ensures DatedEntry(t, batchStart, idToTask[x := t'], idToStart[x := s], idToEnd[x := e])
  {
    var d0 :| idToStart[t.id] == batchStart ||
              (d0 in t.dependsOnIds && d0 in idToEnd && idToStart[t.id] == idToEnd[d0]);
    assert t.id != x;
  }

  /** The id-keyed dates of the date loop, read back in input order. */
  lemma DatesToSchedule(ts: seq<Task>, batchStart: Day, idToTask: map<Id, Task>,
                        idToStart: map<Id, Day>, idToEnd: map<Id, Day>, rs: seq<Task>)
    requires DepsWellFormed(ts)
    requires forall m :: 0 <= m < |ts| ==> ts[m].id in idToEnd && ts[m].id in idToTask
    requires forall m :: 0 <= m < |ts| ==> DatedEntry(ts[m], batchStart, idToTask, idToStart, idToEnd)
    requires |rs| == |ts| && forall m :: 0 <= m < |ts| ==> rs[m] == idToTask[ts[m].id]
    ensures ScheduledFrom(ts, batchStart, rs)
  {
    assert AllDated(rs);
    forall i | 0 <= i < |ts| ensures StartRule(ts, batchStart, rs, i) {
      var t := ts[i];
      assert Start(rs[i]) == idToStart[t.id];
      forall j | 0 <= j < |ts| && ts[j].id in t.dependsOnIds ensures End(rs[j]) <= Start(rs[i]) {
        assert End(rs[j]) == idToEnd[ts[j].id];
      }
      if Start(rs[i]) != batchStart {
        var d :| d in t.dependsOnIds && d in idToEnd && idToStart[t.id] == idToEnd[d];
        assert d in Elems(Ids(ts));
        var j :| 0 <= j < |ts| && Ids(ts)[j] == d;
        assert End(rs[j]) == idToEnd[d];
      }
    }
  }

  /** In-degree of every task: one per entry of its dependency list,
      duplicates, self-references and unknown ids included. */
  method InDegrees(tasks: seq<Task>) returns (indegree: map<Id, int>)
    requires DistinctIds(tasks)
    ensures forall k :: 0 <= k < |tasks| ==>
      tasks[k].id in indegree && indegree[tasks[k].id] == |tasks[k].dependsOnIds|
  {
    indegree := map[];
    for i := 0 to |tasks|
      invariant forall k :: 0 <= k < i ==> tasks[k].id in indegree && indegree[tasks[k].id] == 0
    {
      indegree := indegree[tasks[i].id := 0];
    }
    for i := 0 to |tasks|
      invariant forall k :: 0 <= k < |tasks| ==> tasks[k].id in indegree
      invariant forall k :: 0 <= k < i ==> indegree[tasks[k].id] == |tasks[k].dependsOnIds|
      invariant forall k :: i <= k < |tasks| ==> indegree[tasks[k].id] == 0
    {
      var deps := tasks[i].dependsOnIds;
      for q := 0 to |deps|
        invariant forall k :: 0 <= k < |tasks| ==> tasks[k].id in indegree
        invariant forall k :: 0 <= k < i ==> indegree[tasks[k].id] == |tasks[k].dependsOnIds|
        invariant indegree[tasks[i].id] == q
        invariant forall k :: i < k < |tasks| ==> indegree[tasks[k].id] == 0
      {
        indegree := indegree[tasks[i].id := indegree[tasks[i].id] + 1];
      }
    }
  }

  /** State of the forEach over the batch after `x` is placed, once the
      first `j` tasks have been visited. */
  ghost predicate ReleaseInv(ts: seq<Task>, x: Id, sorted0: seq<Id>,
                             indegree: map<Id, int>, queue: seq<Id>, j: int) {
    && 0 <= j <= |ts|
    && (forall k :: 0 <= k < |ts| ==> ts[k].id in indegree)
    && NoDup(sorted0 + [x] + queue)
    && Elems(sorted0 + [x] + queue) <= Elems(Ids(ts))
    && (forall k :: 0 <= k < j ==> indegree[ts[k].id] == Pending(sorted0 + [x], ts[k]))
    && (forall k :: j <= k < |ts| ==> indegree[ts[k].id] == Pending(sorted0, ts[k]))
    && (forall k :: 0 <= k < |ts| ==> (ts[k].id in sorted0 + [x] + queue <==> indegree[ts[k].id] == 0))
  }

  /** One visit of the forEach: a dependent of `x` loses one in-degree and
      is queued when it reaches zero; it cannot have been queued before,
      because its in-degree counted `x` as waiting. */
  lemma ReleaseStep(ts: seq<Task>, x: Id, sorted0: seq<Id>, indegree: map<Id, int>, queue: seq<Id>, j: int)
    requires DistinctIds(ts) && x !in sorted0 && j < |ts|
    requires ReleaseInv(ts, x, sorted0, indegree, queue, j)
    ensures x !in ts[j].dependsOnIds ==> ReleaseInv(ts, x, sorted0, indegree, queue, j + 1)
    ensures x in ts[j].dependsOnIds ==>
      var d := indegree[ts[j].id] - 1;
      ReleaseInv(ts, x, sorted0, indegree[ts[j].id := d], if d == 0 then queue + [ts[j].id] else queue, j + 1)
  {
    var id := ts[j].id;
    if x in ts[j].dependsOnIds {
      Decrement(ts, sorted0, x, j, indegree[id]);
      var d := indegree[id] - 1;
      if d == 0 {
        assert id == Ids(ts)[j];
        assert id !in sorted0 + [x] + queue;
        assert sorted0 + [x] + (queue + [id]) == (sorted0 + [x] + queue) + [id];
      }
    } else {
      assert Elems(sorted0 + [x]) == Elems(sorted0) + {x};
      assert Elems(sorted0 + [x]) * Elems(ts[j].dependsOnIds) == Elems(sorted0) * Elems(ts[j].dependsOnIds);
    }
  }

  /** The forEach over the batch after `id` is placed: every task whose
      dependency list mentions `id` loses one in-degree, and joins the back
      of the queue, in input order, when its in-degree reaches zero. */
  method ReleaseDependents(tasks: seq<Task>, id: Id, ghost sorted0: seq<Id>,
                           indegree0: map<Id, int>, queue0: seq<Id>)
    returns (indegree: map<Id, int>, queue: seq<Id>)
    requires DistinctIds(tasks) && id !in sorted0
    requires ReleaseInv(tasks, id, sorted0, indegree0, queue0, 0)
    ensures ReleaseInv(tasks, id, sorted0, indegree, queue, |tasks|)
    ensures queue0 <= queue
  {
    indegree, queue := indegree0, queue0;
    for j := 0 to |tasks|
      invariant ReleaseInv(tasks, id, sorted0, indegree, queue, j)
      invariant queue0 <= queue
    {
      ReleaseStep(tasks, id, sorted0, indegree, queue, j);
      if id in tasks[j].dependsOnIds {
        var d := indegree[tasks[j].id] - 1;
        indegree := indegree[tasks[j].id := d];
        if d == 0 {
          queue := queue + [tasks[j].id];
        }
      }
    }
  }

  /** Kahn's loop: the queue starts with the tasks of in-degree zero in
      input order and is served first in, first out. Every task is placed
      exactly when the batch is schedulable, and then the placement order
      is topological. */
  method TopologicalSort(tasks: seq<Task>) returns (sorted: seq<Id>)
    requires DistinctIds(tasks)
    ensures |sorted| == |tasks| <==> Schedulable(tasks)
    ensures |sorted| == |tasks| ==> IsTopologicalOrder(tasks, sorted) && DepsWellFormed(tasks)
  {
    var indegree := InDegrees(tasks);
    var queue: seq<Id> := [];
    for i := 0 to |tasks|
      invariant NoDup(queue)
      invariant Elems(queue) <= Elems(Ids(tasks))
      invariant forall k :: 0 <= k < |tasks| ==> (tasks[k].id in queue <==> k < i && indegree[tasks[k].id] == 0)
    {
      if indegree[tasks[i].id] == 0 {
        assert tasks[i].id == Ids(tasks)[i];
        queue := queue + [tasks[i].id];
      }
    }
    sorted := [];
    assert sorted + queue == queue;
    while |queue| > 0
      invariant KahnInv(tasks, indegree, queue, sorted)
      decreases |tasks| - |sorted|
    {
      PlaceHead(tasks, indegree, queue, sorted);
      var id := queue[0];
      indegree, queue := ReleaseDependents(tasks, id, sorted, indegree, queue[1..]);
      sorted := sorted + [id];
      assert KahnInv(tasks, indegree, queue, sorted);
    }
    if |sorted| == |tasks| {
      KahnDone(tasks, indegree, sorted);
    } else {
      KahnStuck(tasks, indegree, sorted);
    }
  }

  /** The inner loop over a task's dependencies: the later of the batch
      start and the end dates of the dependencies already dated. */
  method EarliestStart(batchStart: Day, deps: seq<Id>, idToEndDate: map<Id, Day>) returns (earliest: Day)
    ensures earliest >= batchStart
    ensures forall d :: d in deps && d in idToEndDate ==> idToEndDate[d] <= earliest
    ensures earliest == batchStart || exists d :: d in deps && d in idToEndDate && earliest == idToEndDate[d]
  {
    earliest := batchStart;
    for q := 0 to |deps|
      invariant earliest >= batchStart
      invariant forall m :: 0 <= m < q && deps[m] in idToEndDate ==> idToEndDate[deps[m]] <= earliest
      invariant earliest == batchStart ||
        exists m :: 0 <= m < q && deps[m] in idToEndDate && earliest == idToEndDate[deps[m]]
    {
      var dep := deps[q];
      if dep in idToEndDate && idToEndDate[dep] > earliest {
        earliest := idToEndDate[dep];
      }
    }
  }

  /** The date loop: walks the tasks in topological order, dating each
      copy from the batch start and its dependencies' end dates. */
  method AssignDates(tasks: seq<Task>, batchStart: Day, sorted: seq<Id>, idToTask0: map<Id, Task>)
    returns (idToTask: map<Id, Task>, idToStartDate: map<Id, Day>, idToEndDate: map<Id, Day>)
    requires DistinctIds(tasks) && IsTopologicalOrder(tasks, sorted)
    requires forall m :: 0 <= m < |tasks| ==> tasks[m].id in idToTask0 && idToTask0[tasks[m].id] == tasks[m]
    ensures forall m :: 0 <= m < |tasks| ==> tasks[m].id in idToEndDate && tasks[m].id in idToTask
    ensures forall m :: 0 <= m < |tasks| ==>
      DatedEntry(tasks[m], batchStart, idToTask, idToStartDate, idToEndDate)
  {
    idToTask, idToStartDate, idToEndDate := idToTask0, map[], map[];
    for n := 0 to |sorted|
      invariant DateInv(tasks, batchStart, sorted, n, idToTask, idToStartDate, idToEndDate)
    {
      var id := sorted[n];
      assert id in Elems(Ids(tasks));
      var mx :| 0 <= mx < |tasks| && Ids(tasks)[mx] == id;
      assert sorted[..n + 1] == sorted[..n] + [id];
      assert id !in sorted[..n];
      var task := idToTask[id];
      assert task == tasks[mx];
      assert Elems(task.dependsOnIds) <= idToEndDate.Keys;
      var taskStart := EarliestStart(batchStart, task.dependsOnIds, idToEndDate);
      var taskEnd := taskStart + Length(task);
      var dated := task.(startDate := Some(taskStart), endDate := Some(taskEnd));
      forall m | 0 <= m < |tasks| && tasks[m].id in idToEndDate
        ensures DatedEntry(tasks[m], batchStart, idToTask[id := dated],
                           idToStartDate[id := taskStart], idToEndDate[id := taskEnd])
      {
        DatedEntryGrows(tasks[m], batchStart, idToTask, idToStartDate, idToEndDate, id, dated, taskStart, taskEnd);
      }
      ghost var before := idToEndDate;
      idToStartDate := idToStartDate[id := taskStart];
      idToEndDate := idToEndDate[id := taskEnd];
      idToTask := idToTask[id := dated];
      assert DatedEntry(tasks[mx], batchStart, idToTask, idToStartDate, idToEndDate) by {
        forall d | d in task.dependsOnIds ensures d in idToEndDate && idToEndDate[d] <= taskStart {
          assert d in before;
        }
        if taskStart != batchStart {
          var d :| d in task.dependsOnIds && d in before && taskStart == before[d];
          assert d != id;
        }
      }
    }
    assert sorted[..|sorted|] == sorted;
    forall m | 0 <= m < |tasks| ensures tasks[m].id in idToEndDate {
      assert tasks[m].id == Ids(tasks)[m];
    }
  }

  /** Dates the tasks along a topological order and measures the span of
      the result; the dated copies come back in input order. */
  method DateInOrder(tasks: seq<Task>, batchStart: Day, sorted: seq<Id>, idToTask0: map<Id, Task>)
    returns (schedule: Schedule)
    requires DistinctIds(tasks) && DepsWellFormed(tasks) && IsTopologicalOrder(tasks, sorted)
    requires forall m :: 0 <= m < |tasks| ==> tasks[m].id in idToTask0 && idToTask0[tasks[m].id] == tasks[m]
    ensures ScheduledFrom(tasks, batchStart, schedule.tasks)
    ensures schedule.span == SpanOf(schedule.tasks)
  {
    var idToTask, idToStartDate, idToEndDate := AssignDates(tasks, batchStart, sorted, idToTask0);

    var scheduled := seq(|tasks|, m requires 0 <= m < |tasks| => idToTask[tasks[m].id]);
    DatesToSchedule(tasks, batchStart, idToTask, idToStartDate, idToEndDate, scheduled);

    var span := MeasureSpan(scheduled);
    return Schedule(scheduled, span);
  }

  /** The overall span of a dated batch: earliest start, latest end and
      the days between; none for an empty batch. */
  method MeasureSpan(scheduled: seq<Task>) returns (span: Option<Span>)
    requires AllDated(scheduled)
    ensures span == SpanOf(scheduled)
  {
    span := None;
    if |scheduled| > 0 {
      var overallStart := MinStart(scheduled);
      var overallEnd := MaxEnd(scheduled);
      span := Some(Span(overallStart, overallEnd, overallEnd - overallStart));
    }
  }

  /** The scheduler: copies the tasks, sorts them topologically (failing
      with CyclicDependency when not every task can be placed), dates them
      in that order, and returns the dated copies in input order with the
      overall span. The input tasks are never changed. */
  method ScheduleTasks(tasks: seq<Task>, batchStart: Day) returns (r: Outcome)
    requires DistinctIds(tasks)
    ensures r.Scheduled? <==> Schedulable(tasks)
    ensures r.Scheduled? ==>
      && ScheduledFrom(tasks, batchStart, r.schedule.tasks)
      && r.schedule.span == SpanOf(r.schedule.tasks)
  {
    var idToTask: map<Id, Task> := map[];
    for i := 0 to |tasks|
      invariant forall k :: 0 <= k < i ==> tasks[k].id in idToTask && idToTask[tasks[k].id] == tasks[k]
    {
      idToTask := idToTask[tasks[i].id := tasks[i]];
    }

    var sorted := TopologicalSort(tasks);
    if |sorted| != |tasks| {
      return CyclicDependency;
    }

    var schedule := DateInOrder(tasks, batchStart, sorted, idToTask);
    return Scheduled(schedule);
  }

  // ---------------------------------------------------------------------
  // Properties of schedules
  // ---------------------------------------------------------------------

  /** Reference definition of the earliest start of task `i`: the batch
      start raised to the end date of each dependency among the first `n`
      tasks. */
  function LatestEnd(ts: seq<Task>, rs: seq<Task>, i: int, batchStart: Day, n: int): Day
    requires |rs| == |ts| && AllDated(rs) && 0 <= i < |ts| && 0 <= n <= |ts|
  {
    if n == 0 then batchStart
    else
      var m := LatestEnd(ts, rs, i, batchStart, n - 1);
      if ts[n - 1].id in ts[i].dependsOnIds && End(rs[n - 1]) > m then End(rs[n - 1]) else m
  }

  lemma {:induction false} LatestEndBounds(ts: seq<Task>, rs: seq<Task>, i: int, batchStart: Day, n: int)
    requires |rs| == |ts| && AllDated(rs) && 0 <= i < |ts| && 0 <= n <= |ts|
    ensures LatestEnd(ts, rs, i, batchStart, n) >= batchStart
    ensures forall j :: 0 <= j < n && ts[j].id in ts[i].dependsOnIds ==>
      End(rs[j]) <= LatestEnd(ts, rs, i, batchStart, n)
    ensures LatestEnd(ts, rs, i, batchStart, n) == batchStart ||
      exists j :: 0 <= j < n && ts[j].id in ts[i].dependsOnIds && LatestEnd(ts, rs, i, batchStart, n) == End(rs[j])
  {
    if n > 0 {
      LatestEndBounds(ts, rs, i, batchStart, n - 1);
    }
  }

  /** Each scheduled start is the later of the batch start and the latest
      end date among the task's direct dependencies. */
  lemma StartIsLatestDependencyEnd(ts: seq<Task>, batchStart: Day, rs: seq<Task>, i: int)
    requires ScheduledFrom(ts, batchStart, rs) && 0 <= i < |ts|
    ensures Start(rs[i]) == LatestEnd(ts, rs, i, batchStart, |ts|)
  {
    LatestEndBounds(ts, rs, i, batchStart, |ts|);
    assert StartRule(ts, batchStart, rs, i);
  }

  /** LatestEnd reads only the end dates of the task's dependencies. */
  lemma {:induction false} LatestEndDependsOnDeps(ts: seq<Task>, rs1: seq<Task>, rs2: seq<Task>,
                                                  i: int, batchStart: Day, n: int)
    requires |rs1| == |ts| && AllDated(rs1) && |rs2| == |ts| && AllDated(rs2)
    requires 0 <= i < |ts| && 0 <= n <= |ts|
    requires forall j :: 0 <= j < |ts| && ts[j].id in ts[i].dependsOnIds ==> End(rs1[j]) == End(rs2[j])
    ensures LatestEnd(ts, rs1, i, batchStart, n) == LatestEnd(ts, rs2, i, batchStart, n)
  {
    if n > 0 {
      LatestEndDependsOnDeps(ts, rs1, rs2, i, batchStart, n - 1);
    }
  }

  /** The dates of a schedulable batch are determined by the batch and its
      start date alone: two schedules obeying the rules are equal, whatever
      order ties are broken in. */
  lemma ScheduleIsUnique(ts: seq<Task>, batchStart: Day, rs1: seq<Task>, rs2: seq<Task>)
    requires Schedulable(ts)
    requires ScheduledFrom(ts, batchStart, rs1) && ScheduledFrom(ts, batchStart, rs2)
    ensures rs1 == rs2
  {
    var w :| IsTopologicalOrder(ts, w);
    for p := 0 to |w|
      invariant forall i :: 0 <= i < |ts| && ts[i].id in w[..p] ==> rs1[i] == rs2[i]
    {
      forall i | 0 <= i < |ts| && ts[i].id in w[..p + 1] ensures rs1[i] == rs2[i] {
        assert w[..p + 1] == w[..p] + [w[p]];
        if ts[i].id == w[p] {
          assert Elems(ts[i].dependsOnIds) <= Elems(w[..p]);
          forall j | 0 <= j < |ts| && ts[j].id in ts[i].dependsOnIds ensures End(rs1[j]) == End(rs2[j]) {
            assert ts[j].id in Elems(w[..p]);
          }
          LatestEndDependsOnDeps(ts, rs1, rs2, i, batchStart, |ts|);
          StartIsLatestDependencyEnd(ts, batchStart, rs1, i);
          StartIsLatestDependencyEnd(ts, batchStart, rs2, i);
        }
      }
    }
    forall i | 0 <= i < |ts| ensures rs1[i] == rs2[i] {
      assert ts[i].id == Ids(ts)[i];
      assert w[..|w|] == w;
      assert ts[i].id in Elems(w);
    }
  }

  /** A non-empty schedulable batch starts on the batch start date (the
      first task of any topological order has no dependencies) and spans
      at least one day. */
  lemma SpanStartsAtBatchStart(ts: seq<Task>, batchStart: Day, rs: seq<Task>)
    requires Schedulable(ts) && |ts| > 0 && ScheduledFrom(ts, batchStart, rs)
    ensures SpanOf(rs) == Some(Span(batchStart, MaxEnd(rs), MaxEnd(rs) - batchStart))
    ensures MaxEnd(rs) - batchStart >= 1
  {
    var k := RootStartsAtBatchStart(ts, batchStart, rs);
    var m := MinStart(rs);
    var km :| 0 <= km < |rs| && m == Start(rs[km]);
    assert StartRule(ts, batchStart, rs, km);
    assert End(rs[k]) == Start(rs[k]) + Length(ts[k]);
  }

  /** The task placed first by a topological order has no dependencies,
      so it starts on the batch start date. */
  lemma RootStartsAtBatchStart(ts: seq<Task>, batchStart: Day, rs: seq<Task>) returns (k: int)
    requires Schedulable(ts) && |ts| > 0 && ScheduledFrom(ts, batchStart, rs)
    ensures 0 <= k < |ts| && Start(rs[k]) == batchStart
  {
    var w :| IsTopologicalOrder(ts, w);
    assert w[0] in Elems(Ids(ts));
    k :| 0 <= k < |ts| && Ids(ts)[k] == w[0];
    assert Elems(ts[k].dependsOnIds) <= Elems(w[..0]);
    assert w[..0] == [];
    forall j | 0 <= j < |ts| ensures ts[j].id !in ts[k].dependsOnIds {
      assert ts[j].id !in Elems(ts[k].dependsOnIds);
    }
    assert StartRule(ts, batchStart, rs, k);
  }

  /** Position of `x` in `w`. */
  ghost function IndexOf(w: seq<Id>, x: Id): (p: int)
    requires x in w
    ensures 0 <= p < |w| && w[p] == x
  {
    if w[0] == x then 0 else 1 + IndexOf(w[1..], x)
  }

  /** In a topological order every dependency comes strictly before the
      task that depends on it. */
  lemma DependencyPrecedes(ts: seq<Task>, w: seq<Id>, i: int, j: int)
    requires IsTopologicalOrder(ts, w) && 0 <= i < |ts| && 0 <= j < |ts|
    requires ts[j].id in ts[i].dependsOnIds
    ensures ts[i].id in w && ts[j].id in w
    ensures IndexOf(w, ts[j].id) < IndexOf(w, ts[i].id)
  {
    assert ts[i].id == Ids(ts)[i] && ts[j].id == Ids(ts)[j];
    assert ts[i].id in Elems(w) && ts[j].id in Elems(w);
    var p := IndexOf(w, ts[i].id);
    assert ts[j].id in Elems(w[..p]);
    var q :| 0 <= q < p && w[q] == ts[j].id;
    assert IndexOf(w, ts[j].id) == q;
  }

  /** A task that depends on itself makes the batch unschedulable. */
  lemma SelfDependencyRejected(ts: seq<Task>, i: int)
    requires 0 <= i < |ts| && ts[i].id in ts[i].dependsOnIds
    ensures !Schedulable(ts)
  {
    if Schedulable(ts) {
      var w :| IsTopologicalOrder(ts, w);
      DependencyPrecedes(ts, w, i, i);
      assert false;
    }
  }

  /** Two tasks that depend on each other make the batch unschedulable. */
  lemma MutualDependencyRejected(ts: seq<Task>, i: int, j: int)
    requires 0 <= i < |ts| && 0 <= j < |ts|
    requires ts[j].id in ts[i].dependsOnIds && ts[i].id in ts[j].dependsOnIds
    ensures !Schedulable(ts)
  {
    if Schedulable(ts) {
      var w :| IsTopologicalOrder(ts, w);
      DependencyPrecedes(ts, w, i, j);
      DependencyPrecedes(ts, w, j, i);
      assert false;
    }
  }

  /** A dependency on an id outside the batch makes the batch unschedulable:
      its in-degree never drops to zero. */
  lemma UnknownDependencyRejected(ts: seq<Task>, i: int, d: Id)
    requires 0 <= i < |ts| && d in ts[i].dependsOnIds && forall k :: 0 <= k < |ts| ==> ts[k].id != d
    ensures !Schedulable(ts)
  {
    assert d in Elems(ts[i].dependsOnIds) && d !in Elems(Ids(ts));
  }

  /** A dependency listed twice makes the batch unschedulable: the
      in-degree counts it twice but placing it releases it once. */
  lemma RepeatedDependencyRejected(ts: seq<Task>, i: int, a: int, b: int)
    requires 0 <= i < |ts| && 0 <= a < b < |ts[i].dependsOnIds|
    requires ts[i].dependsOnIds[a] == ts[i].dependsOnIds[b]
    ensures !Schedulable(ts)
  {
  }

  /** Three tasks A(2 days), B(3 days, after A) and C(1 day, after A). */
  function ExampleBatch(): (ts: seq<Task>)
    ensures |ts| == 3 && DistinctIds(ts)
  {
    [ Task("A", "A", "", 2, None, None, [], High),
      Task("B", "B", "", 3, None, None, ["A"], Medium),
      Task("C", "C", "", 1, None, None, ["A"], Low) ]
  }

  lemma ExampleIsSchedulable()
    ensures Schedulable(ExampleBatch())
  {
    var ts, w := ExampleBatch(), ["A", "B", "C"];
    assert Ids(ts) == w;
    assert w[..1] == ["A"] && w[..2] == ["A", "B"];
    assert IsTopologicalOrder(ts, w);
  }

  /** Any schedule of the example batch from day 0 puts A on [0, 2),
      B on [2, 5) and C on [2, 3). */
  lemma ExampleDates(rs: seq<Task>)
    requires ScheduledFrom(ExampleBatch(), 0, rs)
    ensures Start(rs[0]) == 0 && End(rs[0]) == 2
    ensures Start(rs[1]) == 2 && End(rs[1]) == 5
    ensures Start(rs[2]) == 2 && End(rs[2]) == 3
  {
    var ts := ExampleBatch();
    assert StartRule(ts, 0, rs, 0);
    assert Start(rs[0]) == 0;
    assert StartRule(ts, 0, rs, 1);
    assert StartRule(ts, 0, rs, 2);
  }

  /** The example batch scheduled from day 0 spans 5 days. */
  method ScheduleExample() returns (r: Outcome)
    ensures r.Scheduled? && |r.schedule.tasks| == 3
    ensures r.schedule.tasks[0].startDate == Some(0) && r.schedule.tasks[0].endDate == Some(2)
    ensures r.schedule.tasks[1].startDate == Some(2) && r.schedule.tasks[1].endDate == Some(5)
    ensures r.schedule.tasks[2].startDate == Some(2) && r.schedule.tasks[2].endDate == Some(3)
    ensures r.schedule.span == Some(Span(0, 5, 5))
  {
    ExampleIsSchedulable();
    r := ScheduleTasks(ExampleBatch(), 0);
    var rs := r.schedule.tasks;
    ExampleDates(rs);
    SpanStartsAtBatchStart(ExampleBatch(), 0, rs);
    assert MaxEnd(rs) == 5;
  }
}
