/** Shared vocabulary of the planner: task records, priorities, and a few
    facts about sequences of distinct identifiers. */
module Tasks {

  datatype Option<+T> = None | Some(value: T)

  /** Task identifiers are opaque strings (UUIDs in the service). */
  type Id = string

  /** Calendar dates are whole day numbers; time of day plays no part. */
  type Day = int

  datatype Priority = High | Medium | Low

  /** A task as the scheduler and the planner see it. `startDate` and
      `endDate` stay absent until the scheduler fills them in. */
  datatype Task = Task(
    id: Id,
    title: string,
    description: string,
    durationDays: int,
    startDate: Option<Day>,
    endDate: Option<Day>,
    dependsOnIds: seq<Id>,
    priority: Priority)

  predicate NoDup<T(==)>(s: seq<T>) {
    forall i, j :: 0 <= i < j < |s| ==> s[i] != s[j]
  }

  function Elems<T>(s: seq<T>): set<T> {
    set x | x in s
  }

  function Ids(ts: seq<Task>): (r: seq<Id>)
    ensures |r| == |ts|
    ensures forall i :: 0 <= i < |ts| ==> r[i] == ts[i].id
  {
    seq(|ts|, i requires 0 <= i < |ts| => ts[i].id)
  }

  predicate DistinctIds(ts: seq<Task>) {
    forall i, j :: 0 <= i < j < |ts| ==> ts[i].id != ts[j].id
  }

  /** A sequence has at least as many entries as distinct elements, and
      exactly as many when no element repeats. */
  lemma {:induction false} ElemsCard<T>(s: seq<T>)
    ensures |Elems(s)| <= |s|
    ensures |Elems(s)| == |s| <==> NoDup(s)
  {
    if s != [] {
      var init, last := s[..|s| - 1], s[|s| - 1];
      ElemsCard(init);
      assert s == init + [last];
      assert Elems(s) == Elems(init) + {last};
      if last in init {
        assert Elems(s) == Elems(init);
        var k :| 0 <= k < |init| && init[k] == last;
        assert s[k] == s[|s| - 1];
      } else {
        assert |Elems(s)| == |Elems(init)| + 1;
        if NoDup(init) {
          forall i, j | 0 <= i < j < |s| ensures s[i] != s[j] {
            if j == |s| - 1 {
              assert s[i] == init[i];
            } else {
              assert s[i] == init[i] && s[j] == init[j];
            }
          }
        }
      }
      if NoDup(s) {
        forall i, j | 0 <= i < j < |init| ensures init[i] != init[j] {
          assert init[i] == s[i] && init[j] == s[j];
        }
      }
    }
  }

  /** A subset is no larger than its superset, and equally large only
      when it is the superset. */
  lemma {:induction false} SubsetCard<T>(a: set<T>, b: set<T>)
    requires a <= b
    ensures |a| <= |b|
    ensures |a| == |b| ==> a == b
    decreases b
  {
    if b != {} {
      var x :| x in b;
      var a', b' := a - {x}, b - {x};
      SubsetCard(a', b');
      assert |b| == |b'| + 1;
      if x in a {
        assert |a| == |a'| + 1;
        if |a| == |b| {
          assert a' == b';
          assert a == a' + {x} && b == b' + {x};
        }
      } else {
        assert a' == a;
        assert a <= b';
      }
    }
  }

  /** The elements of `s` found in `d` are at most as many as the entries
      of `d`; there are exactly that many only when `d` repeats nothing
      and every entry of `d` is among the elements of `s`. */
  lemma OverlapCard<T>(s: set<T>, d: seq<T>)
    ensures |s * Elems(d)| <= |d|
    ensures |s * Elems(d)| == |d| <==> NoDup(d) && Elems(d) <= s
  {
    ElemsCard(d);
    SubsetCard(s * Elems(d), Elems(d));
    if Elems(d) <= s {
      assert s * Elems(d) == Elems(d);
    }
  }
}
