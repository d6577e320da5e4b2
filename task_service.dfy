/** The task service: smart prioritisation (score and ranking), the
    date-stepping generator of recurring task instances, and the SET-clause
    builder of task updates. Storage is modelled as sequences of rows. */
module TaskService {
  import opened Tasks

  datatype Status = Pending | Completed | Archived

  /** A stored task: the task record and its workflow status. */
  datatype StoredTask = StoredTask(task: Task, status: Status)

  // ---------------------------------------------------------------------
  // Priority score
  // ---------------------------------------------------------------------

  /** Whole days from `today` until the due date; a task without a due
      date counts as due now. */
  function DaysUntilDue(endDate: Option<Day>, today: Day): (d: int)
    ensures endDate.None? ==> d == 0
    ensures endDate.Some? ==> today + d == endDate.value
  {
    match endDate
    case None => 0
    case Some(e) => e - today
  }

  /** Urgency band: overdue 100, one day 80, up to three 60, up to seven
      40, later 20. */
  function Urgency(daysUntilDue: int): (u: int)
    ensures 20 <= u <= 100 && u % 20 == 0
  {
    if daysUntilDue <= 0 then 100
    else if daysUntilDue <= 1 then 80
    else if daysUntilDue <= 3 then 60
    else if daysUntilDue <= 7 then 40
    else 20
  }

  /** How many of the band thresholds `days` lies beyond. */
  function ThresholdsPassed(days: int, thresholds: seq<int>): (n: nat)
    ensures n <= |thresholds|
  {
    if thresholds == [] then 0
    else (if days > thresholds[0] then 1 else 0) + ThresholdsPassed(days, thresholds[1..])
  }

  /** Reference reading of the urgency bands: start from 100 and lose 20
      points for each of the thresholds 0, 1, 3 and 7 days passed. */
  lemma UrgencyByThresholds(days: int)
    ensures Urgency(days) == 100 - 20 * ThresholdsPassed(days, [0, 1, 3, 7])
  {
    var t0, t1, t2, t3: seq<int> := [0, 1, 3, 7], [1, 3, 7], [3, 7], [7];
    assert t0[1..] == t1 && t1[1..] == t2 && t2[1..] == t3 && t3[1..] == [];
    assert ThresholdsPassed(days, t3) == if days > 7 then 1 else 0;
    assert ThresholdsPassed(days, t2) == (if days > 3 then 1 else 0) + ThresholdsPassed(days, t3);
    assert ThresholdsPassed(days, t1) == (if days > 1 then 1 else 0) + ThresholdsPassed(days, t2);
    assert ThresholdsPassed(days, t0) == (if days > 0 then 1 else 0) + ThresholdsPassed(days, t1);
  }

  function PriorityPoints(p: Priority): (n: int)
    ensures n == 10 || n == 20 || n == 30
  {
    match p
    case High => 30
    case Medium => 20
    case Low => 10
  }

  /** Shorter tasks get a bonus of `10 - durationDays`, never negative. */
  function DurationBonus(durationDays: int): (b: int)
    ensures b >= 0 && b >= 10 - durationDays
    ensures b == 0 || b == 10 - durationDays
  {
    if 10 - durationDays > 0 then 10 - durationDays else 0
  }

  /** The smart-prioritisation score of a task on day `today`. */
  function PriorityScore(t: Task, today: Day): (s: int)
    ensures s >= 30
    ensures t.durationDays >= 1 ==> s <= 139
  {
    Urgency(DaysUntilDue(t.endDate, today)) + PriorityPoints(t.priority) + DurationBonus(t.durationDays)
  }

  /** `p` is a strictly higher priority band than `q`. */
  predicate Above(p: Priority, q: Priority) {
    (p == High && q != High) || (p == Medium && q == Low)
  }

  /** A due date no later than another never lowers urgency. */
  lemma UrgencyMonotone(d1: int, d2: int)
    requires d1 <= d2
    ensures Urgency(d1) >= Urgency(d2)
  {
  }

  /** Moving the due date earlier never lowers the score, and a task
      without a due date scores at least as high as any dated one. */
  lemma EarlierDueNeverLowersScore(t: Task, today: Day, e1: Day, e2: Day)
    requires e1 <= e2
    ensures PriorityScore(t.(endDate := Some(e1)), today) >= PriorityScore(t.(endDate := Some(e2)), today)
    ensures PriorityScore(t.(endDate := None), today) >= PriorityScore(t.(endDate := Some(e1)), today)
  {
    UrgencyMonotone(e1 - today, e2 - today);
  }

  /** With everything else equal, a higher priority band scores strictly
      higher. */
  lemma HigherPriorityScoresHigher(t: Task, today: Day, p: Priority, q: Priority)
    requires Above(p, q)
    ensures PriorityScore(t.(priority := p), today) > PriorityScore(t.(priority := q), today)
  {
  }

  /** With everything else equal, a shorter task never scores lower. */
  lemma ShorterNeverLowersScore(t: Task, today: Day, d1: int, d2: int)
    requires d1 <= d2
    ensures PriorityScore(t.(durationDays := d1), today) >= PriorityScore(t.(durationDays := d2), today)
  {
  }

  /** Two high-priority two-day tasks, one overdue and one due in ten
      days, score 138 and 58. */
  lemma RankingScenario(t: Task, today: Day)
    requires t.priority == High && t.durationDays == 2
    ensures PriorityScore(t.(endDate := Some(today - 1)), today) == 138
    ensures PriorityScore(t.(endDate := Some(today + 10)), today) == 58
  {
  }

  // ---------------------------------------------------------------------
  // Ranking: pending tasks, stably sorted by descending score
  // ---------------------------------------------------------------------

  /** The ranking key of a stored task on day `today`. */
  function Score(x: StoredTask, today: Day): int {
    PriorityScore(x.task, today)
  }

  /** Ranking by score on day `today`. */
  function ScoreOn(today: Day): StoredTask -> int {
    x => Score(x, today)
  }

  /** A sequence ranked by `ScoreOn(today)` has non-increasing scores. */
  lemma RankedByScore(r: seq<StoredTask>, today: Day)
    requires Ranked(r, ScoreOn(today))
    ensures forall i, j :: 0 <= i < j < |r| ==> Score(r[i], today) >= Score(r[j], today)
  {
    forall i, j | 0 <= i < j < |r| ensures Score(r[i], today) >= Score(r[j], today) {
      assert ScoreOn(today)(r[i]) >= ScoreOn(today)(r[j]);
    }
  }

  /** The pending tasks of `all`, in storage order. */
  function PendingOnly(all: seq<StoredTask>): (r: seq<StoredTask>)
    ensures forall x :: x in r ==> x.status == Pending
    ensures forall x :: multiset(r)[x] == if x.status == Pending then multiset(all)[x] else 0
  {
    if all == [] then []
    else
      assert all == [all[0]] + all[1..];
      (if all[0].status == Pending then [all[0]] else []) + PendingOnly(all[1..])
  }

  /** Keys never increase along `r`. */
  predicate Ranked(r: seq<StoredTask>, key: StoredTask -> int) {
    forall i, j :: 0 <= i < j < |r| ==> key(r[i]) >= key(r[j])
  }

  /** Insert `x` in front of the first entry whose key is not larger. */
  function Insert(x: StoredTask, r: seq<StoredTask>, key: StoredTask -> int): (q: seq<StoredTask>)
    ensures multiset(q) == multiset(r) + multiset{x}
    ensures forall y :: y in q ==> y == x || y in r
  {
    if r == [] || key(x) >= key(r[0]) then [x] + r
    else
      assert r == [r[0]] + r[1..];
      [r[0]] + Insert(x, r[1..], key)
  }

  /** Inserting a key below the head of a ranked sequence into its tail
      yields only keys no larger than the head's. */
  lemma InsertBelowHead(x: StoredTask, r: seq<StoredTask>, key: StoredTask -> int)
    requires Ranked(r, key) && r != [] && key(x) < key(r[0])
    ensures forall y :: y in Insert(x, r[1..], key) ==> key(y) <= key(r[0])
  {
    forall y | y in Insert(x, r[1..], key) ensures key(y) <= key(r[0]) {
      if y != x {
        var k :| 0 <= k < |r[1..]| && r[1..][k] == y;
        assert r[k + 1] == y;
      }
    }
  }

  lemma {:induction false} InsertRanked(x: StoredTask, r: seq<StoredTask>, key: StoredTask -> int)
    requires Ranked(r, key)
    ensures Ranked(Insert(x, r, key), key)
  {
    if r != [] && key(x) < key(r[0]) {
      var q := Insert(x, r[1..], key);
      InsertRanked(x, r[1..], key);
      InsertBelowHead(x, r, key);
      ConsRanked(r[0], q, key);
    }
  }

  /** A ranked sequence stays ranked behind a head whose key is at least
      each of its keys. */
  lemma ConsRanked(h: StoredTask, q: seq<StoredTask>, key: StoredTask -> int)
    requires Ranked(q, key) && forall y :: y in q ==> key(y) <= key(h)
    ensures Ranked([h] + q, key)
  {
    var t := [h] + q;
    forall i, j | 0 <= i < j < |t| ensures key(t[i]) >= key(t[j]) {
      if i == 0 {
        assert t[j] == q[j - 1] && t[j] in q;
      } else {
        assert t[i] == q[i - 1] && t[j] == q[j - 1];
      }
    }
  }

  /** Stable sort by descending key: an insertion sort in which each entry
      is inserted ahead of the later entries it ties with. */
  function SortByKey(s: seq<StoredTask>, key: StoredTask -> int): (r: seq<StoredTask>)
    ensures multiset(r) == multiset(s)
    ensures Ranked(r, key)
  {
    if s == [] then []
    else
      assert s == [s[0]] + s[1..];
      var rest := SortByKey(s[1..], key);
      InsertRanked(s[0], rest, key);
      Insert(s[0], rest, key)
  }

  /** The entries of `s` whose key is `v`, in their order in `s`. */
  function WithKey(s: seq<StoredTask>, key: StoredTask -> int, v: int): seq<StoredTask> {
    if s == [] then []
    else (if key(s[0]) == v then [s[0]] else []) + WithKey(s[1..], key, v)
  }

  lemma {:induction false} InsertWithKey(x: StoredTask, r: seq<StoredTask>, key: StoredTask -> int, v: int)
    ensures WithKey(Insert(x, r, key), key, v) ==
      (if key(x) == v then [x] else []) + WithKey(r, key, v)
  {
    if r == [] || key(x) >= key(r[0]) {
      if r != [] && key(x) == v && key(r[0]) == v {
      }
      assert ([x] + r)[1..] == r;
    } else {
      var q := Insert(x, r[1..], key);
      assert ([r[0]] + q)[1..] == q;
      InsertWithKey(x, r[1..], key, v);
    }
  }

  /** The sort is stable: the entries of each key keep their order. */
  lemma {:induction false} SortIsStable(s: seq<StoredTask>, key: StoredTask -> int, v: int)
    ensures WithKey(SortByKey(s, key), key, v) == WithKey(s, key, v)
  {
    if s != [] {
      SortIsStable(s[1..], key, v);
      InsertWithKey(s[0], SortByKey(s[1..], key), key, v);
    }
  }

  /** Every entry of WithKey has key `v` and comes from `s`. */
  lemma {:induction false} WithKeyMembers(s: seq<StoredTask>, key: StoredTask -> int, v: int)
    ensures forall y :: y in WithKey(s, key, v) ==> y in s && key(y) == v
  {
    if s != [] {
      WithKeyMembers(s[1..], key, v);
    }
  }

  /** The largest key of a ranked sequence is that of its head. */
  lemma HeadKeyIsLargest(s: seq<StoredTask>, key: StoredTask -> int, y: StoredTask)
    requires Ranked(s, key) && y in s
    ensures key(y) <= key(s[0])
  {
    var k :| 0 <= k < |s| && s[k] == y;
  }

  /** Two ranked sequences holding, key by key, the same entries in the
      same order are equal: ranking plus stability fix the result. */
  lemma WithKeyHead(s: seq<StoredTask>, key: StoredTask -> int)
    requires s != []
    ensures WithKey(s, key, key(s[0])) == [s[0]] + WithKey(s[1..], key, key(s[0]))
  {
  }

  lemma WithKeyTail(s: seq<StoredTask>, key: StoredTask -> int, v: int)
    requires s != [] && key(s[0]) != v
    ensures WithKey(s, key, v) == WithKey(s[1..], key, v)
  {
    assert [] + WithKey(s[1..], key, v) == WithKey(s[1..], key, v);
  }

  lemma {:induction false} RankedStableUnique(a: seq<StoredTask>, b: seq<StoredTask>, key: StoredTask -> int)
    requires Ranked(a, key) && Ranked(b, key)
    requires forall v :: WithKey(a, key, v) == WithKey(b, key, v)
    ensures a == b
    decreases |a|
  {
    if a == [] && b == [] {
    } else if a == [] {
      WithKeyHead(b, key);
      assert false;
    } else if b == [] {
      WithKeyHead(a, key);
      assert false;
    } else {
      var m, n := key(a[0]), key(b[0]);
      WithKeyHead(a, key);
      WithKeyHead(b, key);
      WithKeyMembers(a, key, n);
      WithKeyMembers(b, key, m);
      assert b[0] in WithKey(b, key, n) && a[0] in WithKey(a, key, m);
      HeadKeyIsLargest(a, key, b[0]);
      HeadKeyIsLargest(b, key, a[0]);
      assert m == n;
      assert ([a[0]] + WithKey(a[1..], key, m))[0] == a[0];
      assert a[0] == b[0];
      forall v ensures WithKey(a[1..], key, v) == WithKey(b[1..], key, v) {
        var x, y := WithKey(a[1..], key, v), WithKey(b[1..], key, v);
        assert WithKey(a, key, v) == WithKey(b, key, v);
        if m == v {
          assert ([a[0]] + x)[1..] == x && ([a[0]] + y)[1..] == y;
        } else {
          WithKeyTail(a, key, v);
          WithKeyTail(b, key, v);
        }
      }
      RankedStableUnique(a[1..], b[1..], key);
      assert a == [a[0]] + a[1..] && b == [b[0]] + b[1..];
    }
  }

  /** The pending tasks, highest score first, ties in storage order. */
  function TasksByPriority(all: seq<StoredTask>, today: Day): (r: seq<StoredTask>)
    ensures forall x :: x in r ==> x.status == Pending
    ensures forall x :: multiset(r)[x] == if x.status == Pending then multiset(all)[x] else 0
    ensures forall i, j :: 0 <= i < j < |r| ==> Score(r[i], today) >= Score(r[j], today)
  {
    var r := SortByKey(PendingOnly(all), ScoreOn(today));
    assert forall x :: x in r ==> x in multiset(r);
    RankedByScore(r, today);
    r
  }

  /** Tied pending tasks keep their storage order in the ranking, and the
      ranking is the only ranked arrangement of the pending tasks that
      does so. */
  lemma RankingIsStableSort(all: seq<StoredTask>, today: Day, r: seq<StoredTask>)
    ensures forall v :: WithKey(TasksByPriority(all, today), ScoreOn(today), v) ==
                        WithKey(PendingOnly(all), ScoreOn(today), v)
    ensures Ranked(r, ScoreOn(today)) &&
            (forall v :: WithKey(r, ScoreOn(today), v) == WithKey(PendingOnly(all), ScoreOn(today), v))
            ==> r == TasksByPriority(all, today)
  {
    var key := ScoreOn(today);
    forall v ensures WithKey(TasksByPriority(all, today), key, v) == WithKey(PendingOnly(all), key, v) {
      SortIsStable(PendingOnly(all), key, v);
    }
    if Ranked(r, key) && forall v :: WithKey(r, key, v) == WithKey(PendingOnly(all), key, v) {
      RankedStableUnique(TasksByPriority(all, today), r, key);
    }
  }

  // ---------------------------------------------------------------------
  // Recurring task instances
  // ---------------------------------------------------------------------

  datatype Frequency = Daily | Weekly | Monthly

  datatype RecurringTask = RecurringTask(
    id: Id,
    title: string,
    description: string,
    durationDays: int,
    priority: Priority,
    frequency: Frequency,
    frequencyValue: int,
    startDate: Day,
    endDate: Option<Day>)

  /** A row of the task-instance table. */
  datatype TaskInstance = TaskInstance(
    recurringTaskId: Id,
    title: string,
    description: string,
    scheduledDate: Day,
    status: Status)

  /** Days between two occurrences. */
  function StepDays(f: Frequency, value: int): (s: int)
    ensures value >= 1 ==> s >= value
  {
    match f
    case Daily => value
    case Weekly => value * 7
    case Monthly => value * 30
  }

  /** First day no occurrence may fall on. Without an end date the window
      closes 30 days after the current instant, so a midnight-aligned
      occurrence on day today+30 is still inside it unless the clock reads
      exactly midnight. */
  function Limit(rt: RecurringTask, today: Day, pastMidnight: bool): (l: Day)
    ensures rt.endDate.Some? ==> l == rt.endDate.value
    ensures rt.endDate.None? ==> today + 30 <= l <= today + 31
  {
    match rt.endDate
    case Some(e) => e
    case None => if pastMidnight then today + 31 else today + 30
  }

  predicate Increasing(ds: seq<Day>) {
    forall i, j :: 0 <= i < j < |ds| ==> ds[i] < ds[j]
  }

  /** The occurrence dates `from`, `from + step`, ... before `limit`. */
  function Occurrences(from: Day, step: int, limit: Day): (ds: seq<Day>)
    requires step >= 1
    ensures |ds| == 0 <==> from >= limit
    decreases limit - from
  {
    if from >= limit then [] else [from] + Occurrences(from + step, step, limit)
  }

  /** The occurrences start at `from`, increase, stay before `limit`, and
      the next step after the last one would reach it. */
  lemma {:induction false} OccurrencesInWindow(from: Day, step: int, limit: Day)
    requires step >= 1
    ensures var ds := Occurrences(from, step, limit);
      && (forall k :: 0 <= k < |ds| ==> from <= ds[k] < limit)
      && (|ds| > 0 ==> ds[0] == from && ds[|ds| - 1] + step >= limit)
      && Increasing(ds)
    decreases limit - from
  {
    if from < limit {
      OccurrencesInWindow(from + step, step, limit);
      var rest := Occurrences(from + step, step, limit);
      var ds := [from] + rest;
      forall i, j | 0 <= i < j < |ds| ensures ds[i] < ds[j] {
        if i == 0 {
          assert ds[j] == rest[j - 1];
        } else {
          assert ds[i] == rest[i - 1] && ds[j] == rest[j - 1];
        }
      }
    }
  }

  /** The k-th occurrence falls k steps after the first. */
  lemma {:induction false} OccurrencesAreSteps(from: Day, step: int, limit: Day)
    requires step >= 1
    ensures forall k :: 0 <= k < |Occurrences(from, step, limit)| ==> Occurrences(from, step, limit)[k] == from + k * step
    decreases limit - from
  {
    if from < limit {
      var rest := Occurrences(from + step, step, limit);
      OccurrencesAreSteps(from + step, step, limit);
      forall k | 1 <= k < |rest| + 1 ensures ([from] + rest)[k] == from + k * step {
        assert ([from] + rest)[k] == rest[k - 1] == from + step + (k - 1) * step;
      }
    }
  }

  predicate HasInstance(rows: seq<TaskInstance>, id: Id, date: Day) {
    exists i :: 0 <= i < |rows| && rows[i].recurringTaskId == id && rows[i].scheduledDate == date
  }

  function NewInstance(rt: RecurringTask, date: Day): TaskInstance {
    TaskInstance(rt.id, rt.title, rt.description, date, Pending)
  }

  /** The rows generation adds for `dates`, given the rows already stored:
      one per date without an instance of the recurring task. */
  function MissingRows(rows: seq<TaskInstance>, rt: RecurringTask, dates: seq<Day>): (r: seq<TaskInstance>)
    ensures forall x :: x in r ==> x == NewInstance(rt, x.scheduledDate) && x.scheduledDate in dates
  {
    if dates == [] then []
    else
      var init, d := dates[..|dates| - 1], dates[|dates| - 1];
      MissingRows(rows, rt, init) + (if HasInstance(rows, rt.id, d) then [] else [NewInstance(rt, d)])
  }

  /** A row of MissingRows is for a date without an instance in `rows`. */
  lemma {:induction false} MissingRowsAreMissing(rows: seq<TaskInstance>, rt: RecurringTask, dates: seq<Day>)
    ensures forall x :: x in MissingRows(rows, rt, dates) ==> !HasInstance(rows, rt.id, x.scheduledDate)
  {
    if dates != [] {
      MissingRowsAreMissing(rows, rt, dates[..|dates| - 1]);
    }
  }

  /** Rows added for dates before `current` do not hold an instance on
      `current`. */
  lemma AddedRowsAreEarlier(rows: seq<TaskInstance>, rt: RecurringTask, done: seq<Day>, current: Day)
    requires forall k :: 0 <= k < |done| ==> done[k] < current
    ensures HasInstance(rows + MissingRows(rows, rt, done), rt.id, current) == HasInstance(rows, rt.id, current)
  {
    var m := MissingRows(rows, rt, done);
    var t := rows + m;
    forall i | |rows| <= i < |t| ensures t[i].scheduledDate != current {
      assert t[i] == m[i - |rows|] && t[i] in m;
    }
    if HasInstance(t, rt.id, current) {
      var i :| 0 <= i < |t| && t[i].recurringTaskId == rt.id && t[i].scheduledDate == current;
      assert rows[i] == t[i];
    }
    if HasInstance(rows, rt.id, current) {
      var i :| 0 <= i < |rows| && rows[i].recurringTaskId == rt.id && rows[i].scheduledDate == current;
      assert t[i] == rows[i];
    }
  }

  /** Generates the instances of recurring task `id` from its start date up
      to its end date (or the default 30-day window), skipping dates that
      already have an instance. Returns the instance table afterwards; an
      unknown id changes nothing. */
  method GenerateRecurringInstances(recurringTasks: map<Id, RecurringTask>, id: Id, rows: seq<TaskInstance>,
                                    today: Day, pastMidnight: bool)
    returns (table: seq<TaskInstance>)
    requires id in recurringTasks ==> recurringTasks[id].id == id && recurringTasks[id].frequencyValue >= 1
    ensures id !in recurringTasks ==> table == rows
    ensures id in recurringTasks ==>
      var rt := recurringTasks[id];
      table == rows + MissingRows(rows, rt, Occurrences(rt.startDate, StepDays(rt.frequency, rt.frequencyValue),
                                                        Limit(rt, today, pastMidnight)))
  {
    if id !in recurringTasks {
      return rows;
    }
    var rt := recurringTasks[id];
    var limit := Limit(rt, today, pastMidnight);
    var step := StepDays(rt.frequency, rt.frequencyValue);
    table := StepThroughOccurrences(rows, rt, step, limit);
  }

  /** The stepping loop: visits `rt.startDate`, then every `step` days
      while before `limit`, adding an instance for each date that has
      none. */
  method StepThroughOccurrences(rows: seq<TaskInstance>, rt: RecurringTask, step: int, limit: Day)
    returns (table: seq<TaskInstance>)
    requires step >= 1
    ensures table == rows + MissingRows(rows, rt, Occurrences(rt.startDate, step, limit))
  {
    var current := rt.startDate;
    table := rows;
    ghost var done: seq<Day> := [];
    while current < limit
      invariant GenerationState(rows, rt, step, limit, done, current, table)
      decreases limit - current
    {
      ghost var table0 := table;
      var existing := HasInstance(table, rt.id, current);
      if !existing {
        table := table + [NewInstance(rt, current)];
      }
      GenerationStep(rows, rt, step, limit, done, current, table0, table);
      done := done + [current];
      current := current + step;
    }
    assert done + Occurrences(current, step, limit) == done;
  }

  /** Loop state of the generator: the dates `done` are the occurrences
      before `current`, and the table holds the rows missing for them. */
  ghost predicate GenerationState(rows: seq<TaskInstance>, rt: RecurringTask, step: int, limit: Day,
                                  done: seq<Day>, current: Day, table: seq<TaskInstance>) {
    && step >= 1
    && Occurrences(rt.startDate, step, limit) == done + Occurrences(current, step, limit)
    && (forall k :: 0 <= k < |done| ==> done[k] < current)
    && table == rows + MissingRows(rows, rt, done)
  }

  /** One turn of the stepping loop keeps its state: `table'` is `table`
      with the instance for `current` added when there was none. */
  lemma GenerationStep(rows: seq<TaskInstance>, rt: RecurringTask, step: int, limit: Day,
                       done: seq<Day>, current: Day, table: seq<TaskInstance>, table': seq<TaskInstance>)
    requires GenerationState(rows, rt, step, limit, done, current, table) && current < limit
    requires table' == if HasInstance(table, rt.id, current) then table else table + [NewInstance(rt, current)]
    ensures GenerationState(rows, rt, step, limit, done + [current], current + step, table')
  {
    AddedRowsAreEarlier(rows, rt, done, current);
    MissingRowsSnoc(rows, rt, done, current);
    OccurrencesSnoc(rt.startDate, step, limit, done, current);
  }

  lemma MissingRowsSnoc(rows: seq<TaskInstance>, rt: RecurringTask, done: seq<Day>, d: Day)
    ensures MissingRows(rows, rt, done + [d]) ==
      MissingRows(rows, rt, done) + (if HasInstance(rows, rt.id, d) then [] else [NewInstance(rt, d)])
  {
    assert (done + [d])[..|done|] == done;
  }

  lemma OccurrencesSnoc(from: Day, step: int, limit: Day, done: seq<Day>, current: Day)
    requires step >= 1 && current < limit
    requires Occurrences(from, step, limit) == done + Occurrences(current, step, limit)
    ensures Occurrences(from, step, limit) == (done + [current]) + Occurrences(current + step, step, limit)
  {
    var rest := Occurrences(current + step, step, limit);
    assert Occurrences(current, step, limit) == [current] + rest;
    assert done + ([current] + rest) == (done + [current]) + rest;
  }

  /** At most one instance of `id` per date. */
  predicate UniqueDates(rows: seq<TaskInstance>, id: Id) {
    forall i, j :: 0 <= i < j < |rows| && rows[i].recurringTaskId == id && rows[j].recurringTaskId == id ==>
      rows[i].scheduledDate != rows[j].scheduledDate
  }

  /** The rows added for increasing dates are in increasing date order. */
  lemma {:induction false} MissingRowsIncreasing(rows: seq<TaskInstance>, rt: RecurringTask, dates: seq<Day>)
    requires Increasing(dates)
    ensures forall i, j :: 0 <= i < j < |MissingRows(rows, rt, dates)| ==>
      MissingRows(rows, rt, dates)[i].scheduledDate < MissingRows(rows, rt, dates)[j].scheduledDate
  {
    if dates != [] {
      var init, d := dates[..|dates| - 1], dates[|dates| - 1];
      assert Increasing(init);
      MissingRowsIncreasing(rows, rt, init);
      var m := MissingRows(rows, rt, init);
      forall x | x in m ensures x.scheduledDate < d {
        var k :| 0 <= k < |init| && init[k] == x.scheduledDate;
        assert dates[k] == init[k];
      }
      var r := MissingRows(rows, rt, dates);
      forall i, j | 0 <= i < j < |r| ensures r[i].scheduledDate < r[j].scheduledDate {
        if j >= |m| {
          assert r[i] == m[i] && m[i] in m;
        } else {
          assert r[i] == m[i] && r[j] == m[j];
        }
      }
    }
  }

  /** Generation never creates a second instance for a (recurring task,
      date) pair: a table without duplicates stays without them. */
  lemma GenerationKeepsDatesUnique(rows: seq<TaskInstance>, rt: RecurringTask, dates: seq<Day>)
    requires Increasing(dates) && UniqueDates(rows, rt.id)
    ensures UniqueDates(rows + MissingRows(rows, rt, dates), rt.id)
  {
    var m := MissingRows(rows, rt, dates);
    MissingRowsIncreasing(rows, rt, dates);
    MissingRowsAreMissing(rows, rt, dates);
    var t := rows + m;
    forall i, j | 0 <= i < j < |t| && t[i].recurringTaskId == rt.id && t[j].recurringTaskId == rt.id
      ensures t[i].scheduledDate != t[j].scheduledDate
    {
      if j >= |rows| {
        assert t[j] == m[j - |rows|] && t[j] in m;
        if i < |rows| {
          assert t[i] == rows[i];
        } else {
          assert t[i] == m[i - |rows|];
        }
      }
    }
  }

  /** After generation every date has an instance of the recurring task. */
  lemma {:induction false} MissingRowsCover(rows: seq<TaskInstance>, rt: RecurringTask, dates: seq<Day>)
    ensures forall d :: d in dates ==> HasInstance(rows + MissingRows(rows, rt, dates), rt.id, d)
  {
    if dates != [] {
      var init, last := dates[..|dates| - 1], dates[|dates| - 1];
      MissingRowsCover(rows, rt, init);
      var m0 := MissingRows(rows, rt, init);
      var t0 := rows + m0;
      var t := rows + MissingRows(rows, rt, dates);
      assert dates == init + [last];
      forall d | d in dates ensures HasInstance(t, rt.id, d) {
        if d in init {
          var i :| 0 <= i < |t0| && t0[i].recurringTaskId == rt.id && t0[i].scheduledDate == d;
          assert t[i] == t0[i];
        } else if HasInstance(rows, rt.id, last) {
          var i :| 0 <= i < |rows| && rows[i].recurringTaskId == rt.id && rows[i].scheduledDate == last;
          assert t[i] == rows[i];
        } else {
          assert t[|t| - 1] == NewInstance(rt, last);
        }
      }
    }
  }

  /** Nothing is missing when every date already has an instance. */
  lemma {:induction false} MissingRowsNone(rows: seq<TaskInstance>, rt: RecurringTask, dates: seq<Day>)
    requires forall d :: d in dates ==> HasInstance(rows, rt.id, d)
    ensures MissingRows(rows, rt, dates) == []
  {
    if dates != [] {
      MissingRowsNone(rows, rt, dates[..|dates| - 1]);
      assert dates[|dates| - 1] in dates;
    }
  }

  /** Generating again over the same dates adds nothing. */
  lemma GenerationIsIdempotent(rows: seq<TaskInstance>, rt: RecurringTask, dates: seq<Day>)
    ensures MissingRows(rows + MissingRows(rows, rt, dates), rt, dates) == []
  {
    var t := rows + MissingRows(rows, rt, dates);
    MissingRowsCover(rows, rt, dates);
    MissingRowsAreMissing(t, rt, dates);
    MissingRowsNone(t, rt, dates);
  }

  // ---------------------------------------------------------------------
  // Task updates
  // ---------------------------------------------------------------------

  /** The fields of an update request; `None` means "leave unchanged". */
  datatype TaskUpdate = TaskUpdate(
    title: Option<string>,
    description: Option<string>,
    priority: Option<Priority>,
    status: Option<Status>,
    startDate: Option<string>,
    endDate: Option<string>)

  function PriorityName(p: Priority): string {
    match p
    case High => "high"
    case Medium => "medium"
    case Low => "low"
  }

  function StatusName(s: Status): string {
    match s
    case Pending => "pending"
    case Completed => "completed"
    case Archived => "archived"
  }

  /** The assignments `updateTask` can put in its SET list. */
  datatype Clause =
    | SetTitle | SetDescription | SetPriority | SetStatus | StampCompletedAt
    | SetStartDate | SetEndDate | StampUpdatedAt

  /** The SQL text of each assignment. */
  function ClauseText(c: Clause): string {
    match c
    case SetTitle => "title = ?"
    case SetDescription => "description = ?"
    case SetPriority => "priority = ?"
    case SetStatus => "status = ?"
    case StampCompletedAt => "completed_at = CURRENT_TIMESTAMP"
    case SetStartDate => "start_date = ?"
    case SetEndDate => "end_date = ?"
    case StampUpdatedAt => "updated_at = CURRENT_TIMESTAMP"
  }

  /** The assignments that bind a value; the two timestamp assignments
      bind none. */
  predicate Binds(c: Clause) {
    c != StampCompletedAt && c != StampUpdatedAt
  }

  /** An assignment binds a value exactly when its text ends in the `?`
      placeholder. */
  lemma BindsIffPlaceholder(c: Clause)
    ensures Binds(c) <==> ClauseText(c)[|ClauseText(c)| - 1] == '?'
  {
  }

  /** Position of an assignment in the fixed order of the SET list. */
  function ClauseRank(c: Clause): (n: int)
    ensures 0 <= n < 8
  {
    match c
    case SetTitle => 0
    case SetDescription => 1
    case SetPriority => 2
    case SetStatus => 3
    case StampCompletedAt => 4
    case SetStartDate => 5
    case SetEndDate => 6
    case StampUpdatedAt => 7
  }

  /** Distinct assignments have distinct texts, so the SET list reads back
      unambiguously. */
  lemma ClauseTextInjective(c: Clause, d: Clause)
    requires c != d
    ensures ClauseText(c) != ClauseText(d)
  {
  }

  /** The assignments of `fields` that bind a value, in order. */
  function Placeholders(fields: seq<Clause>): (r: seq<Clause>)
    ensures |r| <= |fields|
  {
    if fields == [] then []
    else
      Placeholders(fields[..|fields| - 1]) +
      (if Binds(fields[|fields| - 1]) then [fields[|fields| - 1]] else [])
  }

  /** The value the update asks an assignment to bind. */
  function UpdateValue(u: TaskUpdate, c: Clause): Option<string> {
    match c
    case SetTitle => u.title
    case SetDescription => u.description
    case SetPriority => if u.priority.Some? then Some(PriorityName(u.priority.value)) else None
    case SetStatus => if u.status.Some? then Some(StatusName(u.status.value)) else None
    case SetStartDate => u.startDate
    case SetEndDate => u.endDate
    case _ => None
  }

  /** The k-th placeholder of the SET list binds the k-th value, and that
      value is the one the update gives the assignment. */
  predicate BindsUpdate(fields: seq<Clause>, values: seq<string>, u: TaskUpdate) {
    |Placeholders(fields)| <= |values| &&
    forall k :: 0 <= k < |Placeholders(fields)| ==> UpdateValue(u, Placeholders(fields)[k]) == Some(values[k])
  }

  /** The assignments appear in the fixed order, each at most once. */
  predicate InOrder(fields: seq<Clause>) {
    forall i, j :: 0 <= i < j < |fields| ==> ClauseRank(fields[i]) < ClauseRank(fields[j])
  }

  /** The statement for update `u` must hold assignment `c`: a column
      whose new value is given, the completion stamp when the new status
      is completed, and always the update stamp. */
  predicate Requested(u: TaskUpdate, c: Clause) {
    match c
    case SetTitle => u.title.Some?
    case SetDescription => u.description.Some?
    case SetPriority => u.priority.Some?
    case SetStatus => u.status.Some?
    case StampCompletedAt => u.status == Some(Completed)
    case SetStartDate => u.startDate.Some?
    case SetEndDate => u.endDate.Some?
    case StampUpdatedAt => true
  }

  /** The assignment of rank `k`. */
  function ClauseAt(k: int): (c: Clause)
    requires 0 <= k < 8
    ensures ClauseRank(c) == k
  {
    if k == 0 then SetTitle
    else if k == 1 then SetDescription
    else if k == 2 then SetPriority
    else if k == 3 then SetStatus
    else if k == 4 then StampCompletedAt
    else if k == 5 then SetStartDate
    else if k == 6 then SetEndDate
    else StampUpdatedAt
  }

  /** Reference SET list: the requested assignments of rank below `k`, in
      rank order. */
  function RequiredUpTo(u: TaskUpdate, k: int): seq<Clause>
    requires 0 <= k <= 8
  {
    if k == 0 then []
    else RequiredUpTo(u, k - 1) + (if Requested(u, ClauseAt(k - 1)) then [ClauseAt(k - 1)] else [])
  }

  /** The value assignment `c` binds for update `u`: one value when the
      assignment is requested and has a placeholder, none otherwise. */
  function BoundValue(u: TaskUpdate, c: Clause): (r: seq<string>)
    ensures |r| == (if Requested(u, c) && Binds(c) then 1 else 0)
    ensures |r| == 1 ==> UpdateValue(u, c) == Some(r[0])
  {
    match c
    case SetTitle => if u.title.Some? then [u.title.value] else []
    case SetDescription => if u.description.Some? then [u.description.value] else []
    case SetPriority => if u.priority.Some? then [PriorityName(u.priority.value)] else []
    case SetStatus => if u.status.Some? then [StatusName(u.status.value)] else []
    case SetStartDate => if u.startDate.Some? then [u.startDate.value] else []
    case SetEndDate => if u.endDate.Some? then [u.endDate.value] else []
    case _ => []
  }

  /** Reference values: those of the requested placeholder assignments of
      rank below `k`, in rank order. */
  function ValuesUpTo(u: TaskUpdate, k: int): seq<string>
    requires 0 <= k <= 8
  {
    if k == 0 then [] else ValuesUpTo(u, k - 1) + BoundValue(u, ClauseAt(k - 1))
  }

  lemma RankInjective(c: Clause, d: Clause)
    requires ClauseRank(c) == ClauseRank(d)
    ensures c == d
  {
  }

  lemma PlaceholdersSnoc(fields: seq<Clause>, c: Clause)
    ensures Placeholders(fields + [c]) == Placeholders(fields) + (if Binds(c) then [c] else [])
  {
    assert (fields + [c])[..|fields|] == fields;
  }

  /** The reference SET list is in rank order. */
  lemma {:induction false} RequiredInOrder(u: TaskUpdate, k: int)
    requires 0 <= k <= 8
    ensures InOrder(RequiredUpTo(u, k))
    ensures forall f :: f in RequiredUpTo(u, k) ==> ClauseRank(f) < k
  {
    if k > 0 {
      RequiredInOrder(u, k - 1);
      var c, fs := ClauseAt(k - 1), RequiredUpTo(u, k - 1);
      if Requested(u, c) {
        var fs' := fs + [c];
        forall i, j | 0 <= i < j < |fs'| ensures ClauseRank(fs'[i]) < ClauseRank(fs'[j]) {
          if j == |fs| {
            assert fs'[i] == fs[i] && fs[i] in fs;
          }
        }
      }
    }
  }

  /** The reference SET list holds exactly the requested assignments of
      rank below `k`. */
  lemma {:induction false} RequiredMembers(u: TaskUpdate, k: int)
    requires 0 <= k <= 8
    ensures forall c :: c in RequiredUpTo(u, k) <==> Requested(u, c) && ClauseRank(c) < k
  {
    if k > 0 {
      RequiredMembers(u, k - 1);
      var c := ClauseAt(k - 1);
      forall d ensures d in RequiredUpTo(u, k) <==> Requested(u, d) && ClauseRank(d) < k {
        if ClauseRank(d) == k - 1 {
          RankInjective(c, d);
        }
      }
    }
  }

  /** Pushing assignment `c` when requested, together with the value it
      binds, keeps placeholders and values paired. */
  lemma BindsExtend(fs: seq<Clause>, vs: seq<string>, u: TaskUpdate, c: Clause)
    requires |vs| == |Placeholders(fs)| && BindsUpdate(fs, vs, u)
    ensures var fs' := if Requested(u, c) then fs + [c] else fs;
      |vs + BoundValue(u, c)| == |Placeholders(fs')| && BindsUpdate(fs', vs + BoundValue(u, c), u)
  {
    var fs' := if Requested(u, c) then fs + [c] else fs;
    var bv := BoundValue(u, c);
    var extra := if Requested(u, c) && Binds(c) then [c] else [];
    if Requested(u, c) {
      PlaceholdersSnoc(fs, c);
    }
    assert Placeholders(fs') == Placeholders(fs) + extra;
    var ps := Placeholders(fs) + extra;
    forall i | 0 <= i < |ps| ensures UpdateValue(u, ps[i]) == Some((vs + bv)[i]) {
      if i < |Placeholders(fs)| {
        assert ps[i] == Placeholders(fs)[i] && (vs + bv)[i] == vs[i];
      } else {
        assert ps[i] == c && (vs + bv)[i] == bv[0];
      }
    }
  }

  /** The placeholders of the reference SET list bind the reference
      values, one each. */
  lemma {:induction false} RequiredBinds(u: TaskUpdate, k: int)
    requires 0 <= k <= 8
    ensures |ValuesUpTo(u, k)| == |Placeholders(RequiredUpTo(u, k))|
    ensures BindsUpdate(RequiredUpTo(u, k), ValuesUpTo(u, k), u)
  {
    if k > 0 {
      RequiredBinds(u, k - 1);
      var c, fs := ClauseAt(k - 1), RequiredUpTo(u, k - 1);
      BindsExtend(fs, ValuesUpTo(u, k - 1), u, c);
      if Requested(u, c) {
        assert RequiredUpTo(u, k) == fs + [c];
      } else {
        assert RequiredUpTo(u, k) == fs + [] == fs;
      }
    }
  }

  /** The assignments of the task's descriptive columns, pushed in the
      fixed order. */
  method ContentAssignments(u: TaskUpdate) returns (fields: seq<Clause>, values: seq<string>)
    ensures fields == RequiredUpTo(u, 3) && values == ValuesUpTo(u, 3)
  {
    fields, values := [], [];
    if u.title.Some? {
      fields := fields + [SetTitle];
      values := values + [u.title.value];
    }
    assert fields == RequiredUpTo(u, 1) && values == ValuesUpTo(u, 1);
    if u.description.Some? {
      fields := fields + [SetDescription];
      values := values + [u.description.value];
    }
    assert fields == RequiredUpTo(u, 2) && values == ValuesUpTo(u, 2);
    if u.priority.Some? {
      fields := fields + [SetPriority];
      values := values + [PriorityName(u.priority.value)];
    }
  }

  /** Appends the assignments of the status and date columns, in the fixed
      order, to those of the descriptive columns. */
  method StateAssignments(u: TaskUpdate, fields0: seq<Clause>, values0: seq<string>)
    returns (fields: seq<Clause>, values: seq<string>)
    requires fields0 == RequiredUpTo(u, 3) && values0 == ValuesUpTo(u, 3)
    ensures fields == RequiredUpTo(u, 7) && values == ValuesUpTo(u, 7)
  {
    fields, values := fields0, values0;
    if u.status.Some? {
      fields := fields + [SetStatus];
      values := values + [StatusName(u.status.value)];
      if u.status.value == Completed {
        fields := fields + [StampCompletedAt];
      }
    }
    assert fields == RequiredUpTo(u, 5) && values == ValuesUpTo(u, 5);
    if u.startDate.Some? {
      fields := fields + [SetStartDate];
      values := values + [u.startDate.value];
    }
    assert fields == RequiredUpTo(u, 6) && values == ValuesUpTo(u, 6);
    if u.endDate.Some? {
      fields := fields + [SetEndDate];
      values := values + [u.endDate.value];
    }
  }

  /** Builds the SET list and the bound values of `UPDATE tasks SET ...
      WHERE id = ?` for an update of task `id`: exactly the required
      assignments in the fixed order, the update stamp last, each
      placeholder bound to the update's value, and the id bound after them
      for the WHERE clause. */
  method BuildUpdate(id: Id, u: TaskUpdate) returns (fields: seq<Clause>, values: seq<string>)
    ensures fields == RequiredUpTo(u, 8) && values == ValuesUpTo(u, 8) + [id]
    ensures |fields| >= 1 && fields[|fields| - 1] == StampUpdatedAt
    ensures InOrder(fields)
    ensures forall c :: c in fields <==> Requested(u, c)
    ensures |values| == |Placeholders(fields)| + 1 && values[|values| - 1] == id
    ensures BindsUpdate(fields, values, u)
  {
    fields, values := ContentAssignments(u);
    fields, values := StateAssignments(u, fields, values);
    fields := fields + [StampUpdatedAt];
    values := values + [id];
    assert fields == RequiredUpTo(u, 8) && ValuesUpTo(u, 8) == ValuesUpTo(u, 7);
    RequiredInOrder(u, 8);
    RequiredMembers(u, 8);
    RequiredBinds(u, 8);
  }
}
