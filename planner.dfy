/** The goal planner: reads a timeframe out of the goal text, drafts tasks
    from keyword templates when no generated drafts are available, and
    normalises drafts into tasks: ids, clamped durations, dependency titles
    resolved to ids, durations rescaled to the timeframe, and a sequential
    chain when no dependencies were given. */
module Planner {
  import opened Tasks
  import Scheduler

  // ---------------------------------------------------------------------
  // Characters
  // ---------------------------------------------------------------------

  /** Lower-casing of ASCII letters; every other character is kept. */
  function LowerChar(c: char): char {
    if 'A' <= c <= 'Z' then (c as int + 32) as char else c
  }

  function Lower(s: string): (r: string)
    ensures |r| == |s|
    ensures forall k :: 0 <= k < |s| ==> r[k] == LowerChar(s[k])
  {
    seq(|s|, k requires 0 <= k < |s| => LowerChar(s[k]))
  }

  /** The regular-expression class `\d`. */
  predicate IsDigit(c: char) {
    '0' <= c <= '9'
  }

  /** The regular-expression class `\s`: ASCII blanks and the Unicode
      space separators, line and paragraph separators and the byte-order
      mark. */
  predicate IsSpace(c: char) {
    var n := c as int;
    (9 <= n <= 13) || n == 32 || n == 0xA0 || n == 0x1680 || (0x2000 <= n <= 0x200A) ||
    n == 0x2028 || n == 0x2029 || n == 0x202F || n == 0x205F || n == 0x3000 || n == 0xFEFF
  }

  /** `w` occurs in `s` at position `k`. */
  predicate HasAt(s: string, k: int, w: string) {
    0 <= k && k + |w| <= |s| && s[k..k + |w|] == w
  }

  /** `w` occurs somewhere in `s`. */
  predicate Contains(s: string, w: string) {
    exists k :: 0 <= k <= |s| - |w| && HasAt(s, k, w)
  }

  // ---------------------------------------------------------------------
  // Timeframe
  // ---------------------------------------------------------------------

  /** End of the run of digits starting at `i`. */
  function DigitsEnd(s: string, i: int): (j: int)
    requires 0 <= i <= |s|
    ensures i <= j <= |s|
    ensures forall k :: i <= k < j ==> IsDigit(s[k])
    ensures j == |s| || !IsDigit(s[j])
    decreases |s| - i
  {
    if i < |s| && IsDigit(s[i]) then DigitsEnd(s, i + 1) else i
  }

  /** End of the run of blanks starting at `i`. */
  function SpacesEnd(s: string, i: int): (j: int)
    requires 0 <= i <= |s|
    ensures i <= j <= |s|
    ensures forall k :: i <= k < j ==> IsSpace(s[k])
    ensures j == |s| || !IsSpace(s[j])
    decreases |s| - i
  {
    if i < |s| && IsSpace(s[i]) then SpacesEnd(s, i + 1) else i
  }

  datatype Unit = Days | Weeks | Months

  /** The unit word starting at `k`. The alternatives are tried in the
      order of the pattern, and the plural forms start with the singular
      ones, so only the singular word decides. */
  function UnitAt(s: string, k: int): Option<Unit>
    requires 0 <= k <= |s|
  {
    if HasAt(s, k, "day") then Some(Days)
    else if HasAt(s, k, "week") then Some(Weeks)
    else if HasAt(s, k, "month") then Some(Months)
    else None
  }

  /** Decimal value of a digit string. */
  function Number(ds: string): (n: int)
    requires forall k :: 0 <= k < |ds| ==> IsDigit(ds[k])
    ensures n >= 0
  {
    if ds == [] then 0
    else
      assert IsDigit(ds[|ds| - 1]);
      Number(ds[..|ds| - 1]) * 10 + (ds[|ds| - 1] as int - '0' as int)
  }

  /** A match of `(\d+)\s*(day|days|week|weeks|month|months)`: the number
      and the unit. */
  datatype Match = Match(count: int, unit: Unit)

  /** The match starting at `i`, if any. The digit and blank runs are
      taken whole: giving back a digit or a blank leaves a digit or a blank
      where the next part of the pattern must start, so backtracking never
      finds another match at `i`. */
  function MatchAt(s: string, i: int): Option<Match>
    requires 0 <= i <= |s|
  {
    if i < |s| && IsDigit(s[i]) then
      var j := DigitsEnd(s, i);
      var u := UnitAt(s, SpacesEnd(s, j));
      if u.Some? then Some(Match(Number(s[i..j]), u.value)) else None
    else None
  }

  datatype Found = Found(pos: int, m: Match)

  /** The leftmost match at or after `i`. */
  function FirstMatch(s: string, i: int): (r: Option<Found>)
    requires 0 <= i <= |s|
    ensures r.None? <==> forall p :: i <= p < |s| ==> MatchAt(s, p).None?
    ensures r.Some? ==>
      && i <= r.value.pos < |s|
      && MatchAt(s, r.value.pos) == Some(r.value.m)
      && forall p :: i <= p < r.value.pos ==> MatchAt(s, p).None?
    decreases |s| - i
  {
    if i == |s| then None
    else if MatchAt(s, i).Some? then Some(Found(i, MatchAt(s, i).value))
    else FirstMatch(s, i + 1)
  }

  function Multiplier(u: Unit): int {
    match u
    case Days => 1
    case Weeks => 7
    case Months => 30
  }

  /** The timeframe named in a goal, in days: the leftmost number with a
      unit in the lower-cased goal, weeks counting 7 days and months 30,
      raised to at least 1; none when the goal names no timeframe. */
  function ExtractTimeframeDays(goal: string): (r: Option<int>)
    ensures r.Some? ==> r.value >= 1
    ensures r.None? <==> forall p :: 0 <= p < |goal| ==> MatchAt(Lower(goal), p).None?
  {
    match FirstMatch(Lower(goal), 0)
    case None => None
    case Some(f) =>
      var days := f.m.count * Multiplier(f.m.unit);
      Some(if days < 1 then 1 else days)
  }

  /** The timeframe comes from the leftmost match, whatever matches follow. */
  lemma TimeframeIsLeftmost(goal: string, p: int, m: Match)
    requires 0 <= p < |goal| && MatchAt(Lower(goal), p) == Some(m)
    requires forall q :: 0 <= q < p ==> MatchAt(Lower(goal), q).None?
    ensures m.count >= 0
    ensures ExtractTimeframeDays(goal) ==
      Some(if m.count * Multiplier(m.unit) < 1 then 1 else m.count * Multiplier(m.unit))
  {
    var f := FirstMatch(Lower(goal), 0);
    assert f.Some?;
    assert f.value.pos == p;
  }

  /** "Run 2 Weeks" names a fortnight: the match starts at the digit,
      and the unit is read after the lower-casing. */
  lemma TimeframeExample()
    ensures ExtractTimeframeDays("Run 2 Weeks") == Some(14)
  {
    var s := Lower("Run 2 Weeks");
    assert s == "run 2 weeks";
    assert DigitsEnd(s, 4) == 5 && SpacesEnd(s, 5) == 6;
    assert s[6..10] == "week" && s[6..9] != "day";
    assert MatchAt(s, 4) == Some(Match(2, Weeks)) by {
      assert s[4..5] == "2";
    }
    forall p | 0 <= p < 4 ensures MatchAt(s, p).None? {
      assert !IsDigit(s[p]);
    }
    TimeframeIsLeftmost("Run 2 Weeks", 4, Match(2, Weeks));
  }

  /** A match that starts inside a digit run also starts one digit
      earlier: the digit run ends at the same place. */
  lemma MatchInsideRun(s: string, i: int)
    requires 0 <= i < |s| - 1 && IsDigit(s[i]) && MatchAt(s, i + 1).Some?
    ensures MatchAt(s, i).Some?
  {
    assert DigitsEnd(s, i) == DigitsEnd(s, i + 1);
  }

  /** The leftmost match starts a digit run, so its number is the whole
      run and not a tail of it. */
  lemma LeftmostMatchStartsRun(s: string, p: int)
    requires 0 <= p < |s| && MatchAt(s, p).Some?
    requires forall q :: 0 <= q < p ==> MatchAt(s, q).None?
    ensures p == 0 || !IsDigit(s[p - 1])
  {
    if p > 0 && IsDigit(s[p - 1]) {
      MatchInsideRun(s, p - 1);
      assert false;
    }
  }

  // ---------------------------------------------------------------------
  // Keyword templates
  // ---------------------------------------------------------------------

  /** A task draft, as generated or as a template gives it. */
  datatype Draft = Draft(
    title: string,
    description: Option<string>,
    dependsOnTitles: Option<seq<string>>,
    durationDays: Option<real>,
    priority: Option<Priority>)

  datatype Category = Moving | Study | Fitness | Business | Learning | Travel | General

  /** The keyword categories, in the order they are tried. */
  const Tried: seq<Category> := [Moving, Study, Fitness, Business, Learning, Travel]

  function Keywords(c: Category): seq<string> {
    match c
    case Moving => ["move", "apartment", "house", "relocate"]
    case Study => ["exam", "test", "study", "homework"]
    case Fitness => ["fit", "exercise", "gym", "workout", "weight"]
    case Business => ["launch", "product", "business", "app", "startup"]
    case Learning => ["learn", "course", "skill", "language"]
    case Travel => ["travel", "trip", "vacation", "holiday"]
    case General => []
  }

  /** The lower-cased goal mentions a keyword of category `c`. */
  predicate Mentions(s: string, c: Category) {
    exists w :: w in Keywords(c) && Contains(s, w)
  }

  /** The template category: the first tried category the goal mentions,
      the general one when it mentions none. */
  function CategoryOf(s: string): (c: Category)
    ensures c != General ==> Mentions(s, c) && c in Tried
    ensures forall k :: 0 <= k < |Tried| && Tried[k] != c && (c == General || k < IndexIn(c)) ==>
      !Mentions(s, Tried[k])
  {
    if Mentions(s, Moving) then Moving
    else if Mentions(s, Study) then Study
    else if Mentions(s, Fitness) then Fitness
    else if Mentions(s, Business) then Business
    else if Mentions(s, Learning) then Learning
    else if Mentions(s, Travel) then Travel
    else General
  }

  /** Position of a tried category in the trial order. */
  function IndexIn(c: Category): (k: int)
    requires c != General
    ensures 0 <= k < |Tried| && Tried[k] == c
  {
    match c
    case Moving => 0
    case Study => 1
    case Fitness => 2
    case Business => 3
    case Learning => 4
    case Travel => 5
  }

  /** A template duration: one day, or a percentage share of the window. */
  datatype Size = OneDay | Share(percent: int)

  datatype Step = Step(title: string, size: Size, priority: Priority)

  function Template(c: Category): seq<Step> {
    match c
    case Moving => [
      Step("Research neighborhoods and find new place", Share(20), High),
      Step("Visit properties and make decision", Share(15), High),
      Step("Give notice to current landlord", OneDay, High),
      Step("Pack belongings and organize", Share(25), Medium),
      Step("Arrange moving truck/help", OneDay, Medium),
      Step("Transfer utilities and change address", OneDay, High),
      Step("Move belongings to new place", OneDay, High),
      Step("Unpack and settle in", Share(20), Medium)]
    case Study => [
      Step("Review syllabus and exam format", OneDay, High),
      Step("Create study schedule", OneDay, High),
      Step("Review key concepts and notes", Share(40), High),
      Step("Practice problems and past papers", Share(30), Medium),
      Step("Final review and memorization", Share(20), High),
      Step("Rest and prepare for exam day", OneDay, Medium)]
    case Fitness => [
      Step("Assess current fitness level", OneDay, High),
      Step("Create workout plan and schedule", OneDay, High),
      Step("Set up home gym or gym membership", OneDay, Medium),
      Step("Start regular exercise routine", Share(60), High),
      Step("Track progress and adjust plan", Share(20), Medium),
      Step("Maintain healthy diet", Share(10), Medium)]
    case Business => [
      Step("Define requirements and scope", Share(10), High),
      Step("Design and prototype", Share(20), High),
      Step("Development and implementation", Share(40), Medium),
      Step("Testing and bug fixes", Share(20), Medium),
      Step("Launch preparation and marketing", Share(10), High)]
    case Learning => [
      Step("Research learning resources", OneDay, High),
      Step("Set up learning environment", OneDay, Medium),
      Step("Create study schedule", OneDay, High),
      Step("Begin learning and practice", Share(60), High),
      Step("Practice and apply skills", Share(20), Medium),
      Step("Test knowledge and review", Share(10), High)]
    case Travel => [
      Step("Research destination and plan itinerary", Share(20), High),
      Step("Book flights and accommodation", OneDay, High),
      Step("Apply for visas/passport if needed", Share(10), High),
      Step("Plan activities and make reservations", Share(15), Medium),
      Step("Pack and prepare for trip", Share(10), Medium),
      Step("Travel and enjoy the trip", Share(40), High),
      Step("Return and organize memories", Share(5), Low)]
    case General => [
      Step("Plan and research", Share(20), High),
      Step("Prepare resources", Share(20), High),
      Step("Execute main work", Share(40), Medium),
      Step("Review and finalize", Share(20), High)]
  }

  /** Days of a template step in a window of `total` days: a share is the
      whole days of that percentage, raised to at least 1. */
  function SizeDays(size: Size, total: int): (n: int)
    requires total >= 1
    ensures n >= 1
  {
    match size
    case OneDay => 1
    case Share(p) => if total * p / 100 < 1 then 1 else total * p / 100
  }

  /** The window the templates size their steps from: the goal's
      timeframe, a week when it names none. */
  function Window(goal: string): (w: int)
    ensures w >= 1
    ensures ExtractTimeframeDays(goal).None? ==> w == 7
    ensures ExtractTimeframeDays(goal).Some? ==> ExtractTimeframeDays(goal) == Some(w)
  {
    match ExtractTimeframeDays(goal)
    case None => 7
    case Some(d) => d
  }

  /** The drafts of the template the goal's keywords select, sized in
      the goal's window. */
  function HeuristicDraft(goal: string): (ds: seq<Draft>)
    ensures DraftsOf(ds, Template(CategoryOf(Lower(goal))), Window(goal))
  {
    TemplateDrafts(Template(CategoryOf(Lower(goal))), Window(goal))
  }

  /** `ds` drafts the template `steps` step by step in a window of `total`
      days: same titles and priorities, no dependencies, and each duration
      the step's whole days in that window, at least one. */
  predicate DraftsOf(ds: seq<Draft>, steps: seq<Step>, total: int)
    requires total >= 1
  {
    && |ds| == |steps|
    && forall k :: 0 <= k < |ds| ==>
      && ds[k].title == steps[k].title
      && ds[k].priority == Some(steps[k].priority)
      && ds[k].dependsOnTitles.None?
      && ds[k].durationDays == Some(SizeDays(steps[k].size, total) as real)
      && ds[k].durationDays.value == ds[k].durationDays.value.Floor as real
      && ds[k].durationDays.value >= 1.0
  }

  /** One draft per template step, sized in a window of `total` days. */
  function TemplateDrafts(steps: seq<Step>, total: int): (ds: seq<Draft>)
    requires total >= 1
    ensures DraftsOf(ds, steps, total)
  {
    seq(|steps|, k requires 0 <= k < |steps| => StepDraft(steps[k], total))
  }

  /** The draft of one template step in a window of `total` days. */
  function StepDraft(step: Step, total: int): (d: Draft)
    requires total >= 1
    ensures d.title == step.title && d.priority == Some(step.priority) && d.dependsOnTitles.None?
    ensures d.durationDays == Some(SizeDays(step.size, total) as real)
    ensures d.durationDays.value == d.durationDays.value.Floor as real && d.durationDays.value >= 1.0
  {
    Draft(step.title, None, None, Some(SizeDays(step.size, total) as real), Some(step.priority))
  }

  // ---------------------------------------------------------------------
  // Normalisation
  // ---------------------------------------------------------------------

  /** The least whole number not below `x`. */
  function Ceil(x: real): (n: int)
    ensures n as real - 1.0 < x <= n as real
  {
    -((-x).Floor)
  }

  /** The duration a draft asks for, rounded up, 1 when absent, and raised
      to at least 1. */
  function DraftDays(d: Option<real>): (n: int)
    ensures n >= 1
    ensures d.None? ==> n == 1
    ensures d.Some? && d.value > 1.0 ==> n as real - 1.0 < d.value <= n as real
    ensures d.Some? && d.value <= 1.0 ==> n == 1
  {
    var c := Ceil(if d.Some? then d.value else 1.0);
    if c < 1 then 1 else c
  }

  /** The task a draft becomes before its dependencies are resolved. */
  function Normalize(d: Draft, id: Id): (t: Task)
    ensures t.durationDays >= 1 && t.dependsOnIds == []
  {
    Task(id, d.title,
         if d.description.Some? then d.description.value else "",
         DraftDays(d.durationDays), None, None, [],
         if d.priority.Some? then d.priority.value else Medium)
  }

  function Normalized(drafts: seq<Draft>, ids: seq<Id>): (ts: seq<Task>)
    requires |ids| == |drafts|
    ensures |ts| == |drafts| && Ids(ts) == ids
    ensures forall k :: 0 <= k < |ts| ==> ts[k] == Normalize(drafts[k], ids[k])
  {
    seq(|drafts|, k requires 0 <= k < |drafts| => Normalize(drafts[k], ids[k]))
  }

  /** Lower-cased title to id, the later of two tasks with the same
      lower-cased title winning. */
  function TitleIndex(ts: seq<Task>): map<string, Id> {
    if ts == [] then map[]
    else TitleIndex(ts[..|ts| - 1])[Lower(ts[|ts| - 1].title) := ts[|ts| - 1].id]
  }

  /** Task `k` is the last with lower-cased title `key`. */
  ghost predicate LastWithTitle(ts: seq<Task>, k: int, key: string) {
    0 <= k < |ts| && Lower(ts[k].title) == key && forall j :: k < j < |ts| ==> Lower(ts[j].title) != key
  }

  /** Every title is in the index, and each entry is the id of the last
      task with that lower-cased title. */
  lemma {:induction false} TitleIndexLastWins(ts: seq<Task>)
    ensures forall k :: 0 <= k < |ts| ==> Lower(ts[k].title) in TitleIndex(ts)
    ensures forall key :: key in TitleIndex(ts) ==>
      exists k :: LastWithTitle(ts, k, key) && TitleIndex(ts)[key] == ts[k].id
  {
    if ts != [] {
      var init, last := ts[..|ts| - 1], ts[|ts| - 1];
      TitleIndexLastWins(init);
      var m := TitleIndex(ts);
      forall k | 0 <= k < |ts| ensures Lower(ts[k].title) in m {
        if k < |init| {
          assert ts[k] == init[k];
        }
      }
      forall key | key in m ensures exists k :: LastWithTitle(ts, k, key) && m[key] == ts[k].id {
        if key == Lower(last.title) {
          assert LastWithTitle(ts, |ts| - 1, key) && m[key] == ts[|ts| - 1].id;
        } else {
          var k :| LastWithTitle(init, k, key) && TitleIndex(init)[key] == init[k].id;
          assert ts[k] == init[k];
          forall j | k < j < |ts| ensures Lower(ts[j].title) != key {
            if j < |init| {
              assert ts[j] == init[j];
            }
          }
        }
      }
    }
  }

  /** Every entry of the index is the id of a task of the batch. */
  lemma {:induction false} TitleIndexValues(ts: seq<Task>)
    ensures forall key :: key in TitleIndex(ts) ==> TitleIndex(ts)[key] in Elems(Ids(ts))
  {
    if ts != [] {
      var init := ts[..|ts| - 1];
      TitleIndexValues(init);
      assert Ids(ts) == Ids(init) + [ts[|ts| - 1].id];
      assert Elems(Ids(ts)) == Elems(Ids(init)) + {ts[|ts| - 1].id};
    }
  }

  /** Fills the title index, one task after the other. */
  method IndexTitles(tasks: seq<Task>) returns (titleToId: map<string, Id>)
    ensures titleToId == TitleIndex(tasks)
  {
    titleToId := map[];
    for i := 0 to |tasks|
      invariant titleToId == TitleIndex(tasks[..i])
    {
      assert tasks[..i + 1][..i] == tasks[..i];
      titleToId := titleToId[Lower(tasks[i].title) := tasks[i].id];
    }
    assert tasks[..|tasks|] == tasks;
  }

  /** The ids of the titles the index knows, in order; unknown titles,
      and titles whose id is the empty string, are dropped. */
  function Resolve(names: seq<string>, index: map<string, Id>): (r: seq<Id>)
    ensures |r| <= |names|
    ensures forall x :: x in r ==> x != "" && exists key :: key in index && index[key] == x
  {
    if names == [] then []
    else
      var key := Lower(names[0]);
      (if key in index && index[key] != "" then [index[key]] else []) + Resolve(names[1..], index)
  }

  /** When the index knows every title under a non-empty id, each title
      becomes its id. */
  lemma {:induction false} ResolveKnown(names: seq<string>, index: map<string, Id>)
    requires forall k :: 0 <= k < |names| ==> Lower(names[k]) in index && index[Lower(names[k])] != ""
    ensures |Resolve(names, index)| == |names|
    ensures forall k :: 0 <= k < |names| ==> Resolve(names, index)[k] == index[Lower(names[k])]
  {
    if names != [] {
      assert forall k :: 0 <= k < |names[1..]| ==> names[1..][k] == names[k + 1];
      ResolveKnown(names[1..], index);
    }
  }

  /** A title the index does not know, or knows under the empty id,
      contributes nothing. */
  /** Resolving a list is resolving its parts: no title is lost and the
      order of the resolved ids follows the order of the titles. */
  lemma {:induction false} ResolveAppend(a: seq<string>, b: seq<string>, index: map<string, Id>)
    ensures Resolve(a + b, index) == Resolve(a, index) + Resolve(b, index)
  {
    if a == [] {
      assert a + b == b;
    } else {
      assert (a + b)[0] == a[0] && (a + b)[1..] == a[1..] + b;
      ResolveAppend(a[1..], b, index);
    }
  }

  lemma {:induction false} ResolveUnknown(names: seq<string>, index: map<string, Id>)
    requires forall k :: 0 <= k < |names| ==> Lower(names[k]) !in index || index[Lower(names[k])] == ""
    ensures Resolve(names, index) == []
  {
    if names != [] {
      assert forall k :: 0 <= k < |names[1..]| ==> names[1..][k] == names[k + 1];
      ResolveUnknown(names[1..], index);
    }
  }

  function DepTitles(d: Draft): seq<string> {
    if d.dependsOnTitles.Some? then d.dependsOnTitles.value else []
  }

  /** Sets each task's dependencies to the resolved titles of its draft. */
  method AttachDependencies(tasks: seq<Task>, drafts: seq<Draft>, titleToId: map<string, Id>)
    returns (result: seq<Task>)
    requires |drafts| == |tasks|
    ensures |result| == |tasks|
    ensures forall k :: 0 <= k < |tasks| ==>
      result[k] == tasks[k].(dependsOnIds := Resolve(DepTitles(drafts[k]), titleToId))
  {
    result := tasks;
    for i := 0 to |tasks|
      invariant |result| == |tasks|
      invariant forall k :: 0 <= k < i ==>
        result[k] == tasks[k].(dependsOnIds := Resolve(DepTitles(drafts[k]), titleToId))
      invariant forall k :: i <= k < |tasks| ==> result[k] == tasks[k]
    {
      var deps := DepTitles(drafts[i]);
      result := result[i := result[i].(dependsOnIds := Resolve(deps, titleToId))];
    }
  }

  // ---------------------------------------------------------------------
  // Rescaling
  // ---------------------------------------------------------------------

  /** Sum of the durations. */
  function Total(ts: seq<Task>): int {
    if ts == [] then 0 else Total(ts[..|ts| - 1]) + ts[|ts| - 1].durationDays
  }

  /** At least one day per task when each lasts a day or more. */
  lemma {:induction false} TotalAtLeastCount(ts: seq<Task>)
    requires forall k :: 0 <= k < |ts| ==> ts[k].durationDays >= 1
    ensures Total(ts) >= |ts|
  {
    if ts != [] {
      var init := ts[..|ts| - 1];
      assert forall k :: 0 <= k < |init| ==> init[k] == ts[k];
      TotalAtLeastCount(init);
    }
  }

  /** `a / b` rounded to the nearest whole number, halves upwards:
      `a / b + 1/2` lies in `[r, r + 1)`. */
  function RoundHalfUp(a: int, b: int): (r: int)
    requires a >= 0 && b >= 1
    ensures r >= 0
    ensures r * (2 * b) <= 2 * a + b < (r + 1) * (2 * b)
  {
    var m := 2 * b;
    var q := (2 * a + b) / m;
    FloorDivBounds(2 * a + b, m);
    q
  }

  /** Floor division of a non-negative number brackets it. */
  lemma FloorDivBounds(x: int, m: int)
    requires x >= 0 && m >= 1
    ensures x / m >= 0
    ensures (x / m) * m <= x < (x / m + 1) * m
  {
    var q, r := x / m, x % m;
    assert x == q * m + r;
    assert 0 <= r < m;
    MulSucc(q, m);
    if q < 0 {
      MulNegative(q, m);
      assert false;
    }
  }

  lemma MulSucc(q: int, m: int)
    ensures (q + 1) * m == q * m + m
  {
  }

  lemma MulNegative(q: int, m: int)
    requires q < 0 && m >= 1
    ensures q * m <= -m
  {
  }

  /** A duration `d` scaled by `target / total`, rounded and raised to at
      least 1. */
  function Scaled(d: int, target: int, total: int): (n: int)
    requires d >= 1 && target >= 1 && total >= 1
    ensures n >= 1
  {
    var r := RoundHalfUp(d * target, total);
    if r < 1 then 1 else r
  }

  /** Every duration scaled; the rest of each task kept. */
  function ScaledAll(ts: seq<Task>, target: int, total: int): (r: seq<Task>)
    requires target >= 1 && total >= 1
    requires forall k :: 0 <= k < |ts| ==> ts[k].durationDays >= 1
    ensures |r| == |ts|
    ensures forall k :: 0 <= k < |ts| ==>
      r[k] == ts[k].(durationDays := Scaled(ts[k].durationDays, target, total))
  {
    seq(|ts|, k requires 0 <= k < |ts| => ts[k].(durationDays := Scaled(ts[k].durationDays, target, total)))
  }

  /** Rescaling applies when the goal names a timeframe, there is a task,
      and the durations do not already add up to the timeframe. */
  predicate NeedsRescale(ts: seq<Task>, timeframe: Option<int>) {
    timeframe.Some? && |ts| > 0 && Total(ts) != timeframe.value
  }

  /** Days the rounded durations fall short of the timeframe. */
  function Drift(ts: seq<Task>, target: int): int
    requires target >= 1 && |ts| > 0
    requires forall k :: 0 <= k < |ts| ==> ts[k].durationDays >= 1
  {
    TotalAtLeastCount(ts);
    target - Total(ScaledAll(ts, target, Total(ts)))
  }

  lemma TotalSnoc(ts: seq<Task>, t: Task)
    ensures Total(ts + [t]) == Total(ts) + t.durationDays
  {
    assert (ts + [t])[..|ts|] == ts;
  }

  /** The scaling loop: every duration scaled by `target / total`, and
      the sum of the scaled durations. */
  method ScaleDurations(tasks: seq<Task>, target: int, total: int) returns (result: seq<Task>, adjustedTotal: int)
    requires target >= 1 && total >= 1
    requires forall k :: 0 <= k < |tasks| ==> tasks[k].durationDays >= 1
    ensures result == ScaledAll(tasks, target, total) && adjustedTotal == Total(result)
  {
    var scaled := ScaledAll(tasks, target, total);
    result := tasks;
    adjustedTotal := 0;
    for i := 0 to |result|
      invariant |result| == |tasks|
      invariant result[..i] == scaled[..i] && result[i..] == tasks[i..]
      invariant adjustedTotal == Total(result[..i])
    {
      ghost var before := result;
      result := result[i := result[i].(durationDays := Scaled(result[i].durationDays, target, total))];
      ScaleStep(tasks, scaled, before, result, i);
      adjustedTotal := adjustedTotal + result[i].durationDays;
    }
    assert result == result[..|result|] && scaled == scaled[..|scaled|];
  }

  lemma ScaleStep(tasks: seq<Task>, scaled: seq<Task>, before: seq<Task>, after: seq<Task>, i: int)
    requires |scaled| == |tasks| == |before| && 0 <= i < |tasks|
    requires before[..i] == scaled[..i] && before[i..] == tasks[i..]
    requires after == before[i := scaled[i]]
    ensures after[..i + 1] == scaled[..i + 1] && after[i + 1..] == tasks[i + 1..]
    ensures Total(after[..i + 1]) == Total(before[..i]) + after[i].durationDays
  {
    assert after[..i + 1][..i] == before[..i];
    assert forall k :: i + 1 <= k < |tasks| ==> after[k] == before[k] == tasks[k];
    assert before[i..][0] == tasks[i..][0];
  }

  /** The rescaled tasks: every duration scaled to the timeframe, and the
      rounding drift moved into the last task, raised to at least 1. */
  function Fitted(ts: seq<Task>, target: int): seq<Task>
    requires target >= 1 && |ts| > 0
    requires forall k :: 0 <= k < |ts| ==> ts[k].durationDays >= 1
  {
    TotalAtLeastCount(ts);
    var scaled := ScaledAll(ts, target, Total(ts));
    var n := |ts|;
    var last := scaled[n - 1].durationDays + Drift(ts, target);
    scaled[n - 1 := scaled[n - 1].(durationDays := if last < 1 then 1 else last)]
  }

  /** The rescaled durations are all at least 1, only durations change,
      the leading ones are the scaled durations, and they add up to at
      least the timeframe: exactly the timeframe when the last task needs
      no raising. */
  lemma FittedTotal(ts: seq<Task>, target: int)
    requires target >= 1 && |ts| > 0
    requires forall k :: 0 <= k < |ts| ==> ts[k].durationDays >= 1
    ensures Total(ts) >= |ts|
    ensures var r, n := Fitted(ts, target), |ts|;
      var last := Scaled(ts[n - 1].durationDays, target, Total(ts)) + Drift(ts, target);
      && |r| == n
      && (forall k :: 0 <= k < n ==> r[k] == ts[k].(durationDays := r[k].durationDays) && r[k].durationDays >= 1)
      && (forall k :: 0 <= k < n - 1 ==> r[k].durationDays == Scaled(ts[k].durationDays, target, Total(ts)))
      && r[n - 1].durationDays == (if last < 1 then 1 else last)
      && Total(r) >= target
      && (Total(r) == target <==> last >= 1)
  {
    TotalAtLeastCount(ts);
    var scaled := ScaledAll(ts, target, Total(ts));
    var r, n := Fitted(ts, target), |ts|;
    assert r[..n - 1] == scaled[..n - 1];
    assert Total(scaled) == Total(scaled[..n - 1]) + scaled[n - 1].durationDays;
    assert Total(r) == Total(r[..n - 1]) + r[n - 1].durationDays;
  }

  /** The tasks after the rescaling step: Fitted to the timeframe when
      rescaling applies, unchanged otherwise. */
  function RescaledTo(ts: seq<Task>, timeframe: Option<int>): seq<Task>
    requires forall k :: 0 <= k < |ts| ==> ts[k].durationDays >= 1
    requires timeframe.Some? ==> timeframe.value >= 1
  {
    if NeedsRescale(ts, timeframe) then Fitted(ts, timeframe.value) else ts
  }

  /** The rescaling step of the planner. */
  method Rescale(tasks: seq<Task>, timeframe: Option<int>) returns (result: seq<Task>)
    requires forall k :: 0 <= k < |tasks| ==> tasks[k].durationDays >= 1
    requires timeframe.Some? ==> timeframe.value >= 1
    ensures result == RescaledTo(tasks, timeframe)
  {
    result := tasks;
    if timeframe.Some? && |tasks| > 0 {
      var timeframeDays := timeframe.value;
      var currentTotal := Total(tasks);
      TotalAtLeastCount(tasks);
      if currentTotal != timeframeDays {
        var adjustedTotal;
        result, adjustedTotal := ScaleDurations(tasks, timeframeDays, currentTotal);
        var drift := timeframeDays - adjustedTotal;
        var n := |result|;
        var last := result[n - 1].durationDays + drift;
        if drift != 0 {
          result := result[n - 1 := result[n - 1].(durationDays := if last < 1 then 1 else last)];
        } else {
          assert result == result[n - 1 := result[n - 1].(durationDays := last)];
        }
      }
    }
  }

  /** Durations [5, 1] rescaled to 2 days come out as [2, 1]: the last
      task cannot absorb the drift, so the plan overshoots the timeframe
      although two one-day tasks would fit it. */
  lemma RescaleOvershoots()
    ensures var ts := [Sample("a", 5), Sample("b", 1)];
      && NeedsRescale(ts, Some(2))
      && Durations(Fitted(ts, 2)) == [2, 1]
      && Total(Fitted(ts, 2)) == 3
  {
    var ts := [Sample("a", 5), Sample("b", 1)];
    assert Total(ts[..1]) == 5;
    var scaled := ScaledAll(ts, 2, 6);
    assert RoundHalfUp(10, 6) == 2 && RoundHalfUp(2, 6) == 0;
    assert Total(scaled[..1]) == 2;
    var r := Fitted(ts, 2);
    assert Total(r[..1]) == 2;
  }

  /** With the correction, durations [5, 1] rescaled to 2 days come out
      as [1, 1], which fits the timeframe. */
  lemma CorrectedRescaleFits()
    ensures Durations(RescaledExactlyTo([Sample("a", 5), Sample("b", 1)], Some(2))) == [1, 1]
  {
    var ts := [Sample("a", 5), Sample("b", 1)];
    assert Total(ts[..1]) == 5;
    FittedExactlyTotal(ts, 2);
    var r := RescaledExactlyTo(ts, Some(2));
    assert r[..1][..0] == [];
    assert Total(r) == Total(r[..1]) + r[1].durationDays;
  }

  /** Durations [2, 2, 2] rescaled to 10 days become [3, 3, 4]: each is
      scaled to 3 and the last absorbs the one day of drift. */
  lemma RescaleExample()
    ensures var ts := [Sample("a", 2), Sample("b", 2), Sample("c", 2)];
      Durations(RescaledTo(ts, Some(10))) == [3, 3, 4]
  {
    var ts := [Sample("a", 2), Sample("b", 2), Sample("c", 2)];
    TotalOfThree(ts);
    assert RoundHalfUp(20, 6) == 3;
    var scaled := ScaledAll(ts, 10, 6);
    TotalOfThree(scaled);
  }

  lemma TotalOfThree(ts: seq<Task>)
    requires |ts| == 3
    ensures Total(ts) == ts[0].durationDays + ts[1].durationDays + ts[2].durationDays
  {
    var two, one := ts[..2], ts[..1];
    assert two[..1] == one && one[..0] == [];
    assert Total(one) == ts[0].durationDays;
    assert Total(two) == Total(one) + ts[1].durationDays;
  }

  /** A task that only carries an id, a title and a duration. */
  function Sample(id: Id, days: int): Task {
    Task(id, id, "", days, None, None, [], Medium)
  }

  function Durations(ts: seq<Task>): (r: seq<int>)
    ensures |r| == |ts| && forall k :: 0 <= k < |ts| ==> r[k] == ts[k].durationDays
  {
    seq(|ts|, k requires 0 <= k < |ts| => ts[k].durationDays)
  }

  /** Takes up to `excess` days off the tasks, the last task first, never
      taking a task below one day. */
  function Trim(ts: seq<Task>, excess: int): seq<Task>
    decreases |ts|
  {
    if ts == [] || excess == 0 then ts
    else
      var last := ts[|ts| - 1];
      var cut := if excess < last.durationDays - 1 then excess else last.durationDays - 1;
      Trim(ts[..|ts| - 1], excess - cut) + [last.(durationDays := last.durationDays - cut)]
  }

  /** Trimming changes only durations, and keeps each between one day and
      what it was. */
  lemma {:induction false} TrimShape(ts: seq<Task>, excess: int)
    requires excess >= 0
    requires forall k :: 0 <= k < |ts| ==> ts[k].durationDays >= 1
    ensures var r := Trim(ts, excess);
      && |r| == |ts|
      && forall k :: 0 <= k < |ts| ==>
        r[k] == ts[k].(durationDays := r[k].durationDays) && 1 <= r[k].durationDays <= ts[k].durationDays
    decreases |ts|
  {
    if ts != [] && excess != 0 {
      var init, last := ts[..|ts| - 1], ts[|ts| - 1];
      var cut := if excess < last.durationDays - 1 then excess else last.durationDays - 1;
      TrimShape(init, excess - cut);
      var r := Trim(ts, excess);
      assert r == Trim(init, excess - cut) + [last.(durationDays := last.durationDays - cut)];
      assert forall k :: 0 <= k < |init| ==> r[k] == Trim(init, excess - cut)[k] && ts[k] == init[k];
    }
  }

  /** Trimming takes off exactly `excess` days when the durations have
      that many days above one day each. */
  lemma {:induction false} TrimTakesExcess(ts: seq<Task>, excess: int)
    requires forall k :: 0 <= k < |ts| ==> ts[k].durationDays >= 1
    requires 0 <= excess <= Total(ts) - |ts|
    ensures Total(Trim(ts, excess)) == Total(ts) - excess
    decreases |ts|
  {
    if ts != [] && excess != 0 {
      var init, d := ts[..|ts| - 1], ts[|ts| - 1].durationDays;
      var cut := if excess < d - 1 then excess else d - 1;
      TrimStep(ts, excess);
      TotalAtLeastCount(init);
      TrimTakesExcess(init, excess - cut);
      var rest, trimmedRest := Total(init), Total(Trim(init, excess - cut));
      assert trimmedRest == rest - (excess - cut);
      assert Total(Trim(ts, excess)) == trimmedRest + d - cut;
    } else {
      assert Trim(ts, excess) == ts;
    }
  }

  /** Trimming by at least the days above one day each leaves every task
      at one day. */
  lemma {:induction false} TrimBottomsOut(ts: seq<Task>, excess: int)
    requires forall k :: 0 <= k < |ts| ==> ts[k].durationDays >= 1
    requires excess >= 0 && excess >= Total(ts) - |ts|
    ensures Total(Trim(ts, excess)) == |ts|
    decreases |ts|
  {
    TotalAtLeastCount(ts);
    if ts != [] && excess != 0 {
      var init, d := ts[..|ts| - 1], ts[|ts| - 1].durationDays;
      var cut := if excess < d - 1 then excess else d - 1;
      TrimStep(ts, excess);
      TotalAtLeastCount(init);
      TrimBottomsOut(init, excess - cut);
    }
  }

  /** One step of trimming: the last task gives up `cut` days and the rest
      is trimmed by what remains. */
  lemma TrimStep(ts: seq<Task>, excess: int)
    requires excess > 0 && ts != []
    requires forall k :: 0 <= k < |ts| ==> ts[k].durationDays >= 1
    ensures var init, d := ts[..|ts| - 1], ts[|ts| - 1].durationDays;
      var cut := if excess < d - 1 then excess else d - 1;
      && Total(ts) == Total(init) + d
      && Total(Trim(ts, excess)) == Total(Trim(init, excess - cut)) + d - cut
  {
    var init, last := ts[..|ts| - 1], ts[|ts| - 1];
    var cut := if excess < last.durationDays - 1 then excess else last.durationDays - 1;
    var trimmedLast := last.(durationDays := last.durationDays - cut);
    assert Trim(ts, excess) == Trim(init, excess - cut) + [trimmedLast];
    TotalSnoc(Trim(init, excess - cut), trimmedLast);
  }

  /** The tasks with any days over `target` taken off, the last task
      first. */
  function TrimTo(ts: seq<Task>, target: int): seq<Task> {
    if Total(ts) > target then Trim(ts, Total(ts) - target) else ts
  }

  /** Trimming to a target it does not fall short of keeps every task
      but its duration, keeps each duration at least 1, never falls short
      of the target, and meets it whenever there are no more tasks than
      days. */
  lemma TrimToTarget(ts: seq<Task>, target: int)
    requires forall k :: 0 <= k < |ts| ==> ts[k].durationDays >= 1
    requires Total(ts) >= target
    ensures var r := TrimTo(ts, target);
      && |r| == |ts|
      && (forall k :: 0 <= k < |ts| ==> r[k] == ts[k].(durationDays := r[k].durationDays) && r[k].durationDays >= 1)
      && Total(r) >= target
      && (|ts| <= target ==> Total(r) == target)
  {
    if Total(ts) > target {
      var excess := Total(ts) - target;
      TrimShape(ts, excess);
      TotalAtLeastCount(ts);
      if excess <= Total(ts) - |ts| {
        TrimTakesExcess(ts, excess);
      } else {
        TrimBottomsOut(ts, excess);
      }
    }
  }

  /** The rescaling the timeframe calls for: the drift-fixed durations,
      then any days still over the timeframe taken off the tasks, the last
      first. */
  function FittedExactly(ts: seq<Task>, target: int): seq<Task>
    requires target >= 1 && |ts| > 0
    requires forall k :: 0 <= k < |ts| ==> ts[k].durationDays >= 1
  {
    TrimTo(Fitted(ts, target), target)
  }

  /** The corrected rescaling keeps every task but its duration, keeps
      each duration at least 1, never falls short of the timeframe, and
      meets it exactly whenever there are no more tasks than days. */
  lemma FittedExactlyTotal(ts: seq<Task>, target: int)
    requires target >= 1 && |ts| > 0
    requires forall k :: 0 <= k < |ts| ==> ts[k].durationDays >= 1
    ensures var r := FittedExactly(ts, target);
      && |r| == |ts|
      && (forall k :: 0 <= k < |ts| ==> r[k] == ts[k].(durationDays := r[k].durationDays) && r[k].durationDays >= 1)
      && Total(r) >= target
      && (|ts| <= target ==> Total(r) == target)
  {
    FittedTotal(ts, target);
    var f := Fitted(ts, target);
    TrimToTarget(f, target);
    var r := TrimTo(f, target);
    assert forall k :: 0 <= k < |ts| ==> r[k] == ts[k].(durationDays := r[k].durationDays) by {
      assert forall k :: 0 <= k < |ts| ==> r[k] == f[k].(durationDays := r[k].durationDays);
      assert forall k :: 0 <= k < |ts| ==> f[k] == ts[k].(durationDays := f[k].durationDays);
    }
  }

  /** The tasks after the corrected rescaling step: FittedExactly to the
      timeframe when rescaling applies, unchanged otherwise. */
  function RescaledExactlyTo(ts: seq<Task>, timeframe: Option<int>): seq<Task>
    requires forall k :: 0 <= k < |ts| ==> ts[k].durationDays >= 1
    requires timeframe.Some? ==> timeframe.value >= 1
  {
    if NeedsRescale(ts, timeframe) then FittedExactly(ts, timeframe.value) else ts
  }

  /** The corrected rescaling step: the rescaling as the planner does it,
      then the days still over the timeframe taken off, the last task
      first. */
  method RescaleExactly(tasks: seq<Task>, timeframe: Option<int>) returns (result: seq<Task>)
    requires forall k :: 0 <= k < |tasks| ==> tasks[k].durationDays >= 1
    requires timeframe.Some? ==> timeframe.value >= 1
    ensures result == RescaledExactlyTo(tasks, timeframe)
  {
    result := Rescale(tasks, timeframe);
    if NeedsRescale(tasks, timeframe) {
      result := TrimTo(result, timeframe.value);
    }
  }

  // ---------------------------------------------------------------------
  // Chain fallback
  // ---------------------------------------------------------------------

  predicate AnyDeps(ts: seq<Task>) {
    exists k :: 0 <= k < |ts| && |ts[k].dependsOnIds| > 0
  }

  /** Each task depends on exactly its predecessor; the first on none. */
  predicate IsChain(ts: seq<Task>) {
    && (|ts| > 0 ==> ts[0].dependsOnIds == [])
    && forall k :: 1 <= k < |ts| ==> ts[k].dependsOnIds == [ts[k - 1].id]
  }

  /** Links the tasks into a sequential chain when none has a dependency;
      otherwise leaves every dependency list as it is. */
  method ChainIfUnlinked(tasks: seq<Task>) returns (result: seq<Task>)
    ensures |result| == |tasks|
    ensures forall k :: 0 <= k < |tasks| ==> result[k] == tasks[k].(dependsOnIds := result[k].dependsOnIds)
    ensures AnyDeps(tasks) ==> result == tasks
    ensures !AnyDeps(tasks) ==> IsChain(result)
  {
    result := tasks;
    var hasAnyDeps := exists k :: 0 <= k < |tasks| && |tasks[k].dependsOnIds| > 0;
    if !hasAnyDeps {
      var i := 1;
      while i < |result|
        invariant 1 <= i && |result| == |tasks|
        invariant forall k :: 0 <= k < |tasks| ==> result[k] == tasks[k].(dependsOnIds := result[k].dependsOnIds)
        invariant forall k :: 1 <= k < i && k < |tasks| ==> result[k].dependsOnIds == [result[k - 1].id]
        invariant forall k :: 0 <= k < |tasks| && (k == 0 || i <= k) ==> result[k] == tasks[k]
      {
        result := result[i := result[i].(dependsOnIds := [result[i - 1].id])];
        i := i + 1;
      }
      if |tasks| > 0 {
        assert result[0] == tasks[0];
        assert |tasks[0].dependsOnIds| == 0;
      }
    }
  }

  /** A chain over distinct ids is accepted by the scheduler: the input
      order is a topological order. */
  lemma ChainIsSchedulable(ts: seq<Task>)
    requires DistinctIds(ts) && IsChain(ts)
    ensures Scheduler.Schedulable(ts)
  {
    var order := Ids(ts);
    forall i | 0 <= i < |ts|
      ensures NoDup(ts[i].dependsOnIds) && Elems(ts[i].dependsOnIds) <= Elems(order)
    {
      if i > 0 {
        assert order[i - 1] == ts[i - 1].id;
      }
    }
    assert NoDup(order);
    forall p, k | 0 <= p < |order| && 0 <= k < |ts| && ts[k].id == order[p]
      ensures Elems(ts[k].dependsOnIds) <= Elems(order[..p])
    {
      assert k == p;
      if p > 0 {
        assert order[..p][p - 1] == ts[p - 1].id;
      }
    }
    assert Scheduler.IsTopologicalOrder(ts, order);
  }

  // ---------------------------------------------------------------------
  // The planner
  // ---------------------------------------------------------------------

  /** The drafts planned from: the generated ones when there are any,
      the keyword template otherwise. */
  function Drafts(goal: string, generated: Option<seq<Draft>>): seq<Draft> {
    if generated.Some? then generated.value else HeuristicDraft(goal)
  }

  /** The dependency ids task `k` gets from its draft's titles. */
  function ResolvedDeps(drafts: seq<Draft>, ids: seq<Id>, k: int): seq<Id>
    requires |ids| == |drafts| && 0 <= k < |drafts|
  {
    Resolve(DepTitles(drafts[k]), TitleIndex(Normalized(drafts, ids)))
  }

  /** The drafts normalised under their ids, each with the ids its
      dependency titles resolve to: the tasks before rescaling and the
      chain fallback. */
  function Resolved(drafts: seq<Draft>, ids: seq<Id>): (ts: seq<Task>)
    requires |ids| == |drafts|
    ensures |ts| == |drafts|
    ensures forall k :: 0 <= k < |drafts| ==>
      ts[k] == Normalize(drafts[k], ids[k]).(dependsOnIds := ResolvedDeps(drafts, ids, k))
    ensures forall k :: 0 <= k < |ts| ==> ts[k].durationDays >= 1
  {
    seq(|drafts|, k requires 0 <= k < |drafts| =>
      Normalize(drafts[k], ids[k]).(dependsOnIds := ResolvedDeps(drafts, ids, k)))
  }

  /** Normalises the drafts and resolves their dependency titles; every
      resolved dependency is one of the planned ids. */
  method ResolveDrafts(drafts: seq<Draft>, ids: seq<Id>) returns (resolved: seq<Task>)
    requires |ids| == |drafts|
    ensures resolved == Resolved(drafts, ids) && Ids(resolved) == ids
    ensures forall k :: 0 <= k < |drafts| ==> Elems(resolved[k].dependsOnIds) <= Elems(ids)
  {
    var normalized := Normalized(drafts, ids);
    var titleToId := IndexTitles(normalized);
    TitleIndexValues(normalized);
    resolved := AttachDependencies(normalized, drafts, titleToId);
    assert Ids(resolved) == Ids(normalized) by {
      assert forall k :: 0 <= k < |drafts| ==> Ids(resolved)[k] == Ids(normalized)[k];
    }
    forall k | 0 <= k < |drafts| ensures Elems(resolved[k].dependsOnIds) <= Elems(ids) {
      forall x | x in resolved[k].dependsOnIds ensures x in Elems(ids) {
        var key :| key in titleToId && titleToId[key] == x;
      }
    }
  }

  /** The keyword template names no dependencies, so nothing resolves. */
  lemma TemplateHasNoDeps(goal: string, ids: seq<Id>)
    requires |ids| == |HeuristicDraft(goal)|
    ensures !AnyDeps(Resolved(HeuristicDraft(goal), ids))
  {
    var drafts := HeuristicDraft(goal);
    var ts := Resolved(drafts, ids);
    forall k | 0 <= k < |ts| ensures ts[k].dependsOnIds == [] {
      assert DepTitles(drafts[k]) == [];
    }
  }

  /** What the corrected rescaling keeps and gives: only durations
      change, each stays at least 1, and with a timeframe the durations add
      up to at least it, and to exactly it when there are no more tasks
      than days. */
  lemma RescaleKeeps(ts: seq<Task>, timeframe: Option<int>, r: seq<Task>)
    requires forall k :: 0 <= k < |ts| ==> ts[k].durationDays >= 1
    requires timeframe.Some? ==> timeframe.value >= 1
    requires r == RescaledExactlyTo(ts, timeframe)
    ensures |r| == |ts|
    ensures forall k :: 0 <= k < |ts| ==>
      r[k] == ts[k].(durationDays := r[k].durationDays) && r[k].durationDays >= 1
    ensures timeframe.Some? && |ts| > 0 ==> Total(r) >= timeframe.value
    ensures timeframe.Some? && 0 < |ts| <= timeframe.value ==> Total(r) == timeframe.value
  {
    if NeedsRescale(ts, timeframe) {
      FittedExactlyTotal(ts, timeframe.value);
    }
  }

  /** The last task absorbs the rounding drift without being raised to
      one day, the case in which the rescaling as written meets the
      timeframe exactly. */
  predicate LastAbsorbsDrift(ts: seq<Task>, target: int)
    requires target >= 1 && |ts| > 0
    requires forall k :: 0 <= k < |ts| ==> ts[k].durationDays >= 1
  {
    TotalAtLeastCount(ts);
    Scaled(ts[|ts| - 1].durationDays, target, Total(ts)) + Drift(ts, target) >= 1
  }

  /** What the rescaling as written keeps and gives: only durations
      change, each stays at least 1, nothing changes when no rescaling
      applies, and with a timeframe the durations add up to at least it;
      after a rescaling, to exactly it when the last task absorbs the
      drift, and to more otherwise. */
  lemma RescaleAsWrittenKeeps(ts: seq<Task>, timeframe: Option<int>, r: seq<Task>)
    requires forall k :: 0 <= k < |ts| ==> ts[k].durationDays >= 1
    requires timeframe.Some? ==> timeframe.value >= 1
    requires r == RescaledTo(ts, timeframe)
    ensures |r| == |ts|
    ensures forall k :: 0 <= k < |ts| ==>
      r[k] == ts[k].(durationDays := r[k].durationDays) && r[k].durationDays >= 1
    ensures !NeedsRescale(ts, timeframe) ==> r == ts
    ensures timeframe.Some? && |ts| > 0 ==> Total(r) >= timeframe.value
    ensures NeedsRescale(ts, timeframe) ==>
      (Total(r) == timeframe.value <==> LastAbsorbsDrift(ts, timeframe.value))
  {
    if NeedsRescale(ts, timeframe) {
      FittedTotal(ts, timeframe.value);
    }
  }

  /** What the chain fallback keeps: the rescaled durations and total, and
      the resolved dependencies unless none resolved, in which case the
      tasks form a chain; every dependency stays within `ids`. */
  lemma ChainKeeps(resolved: seq<Task>, rescaled: seq<Task>, tasks: seq<Task>, ids: seq<Id>)
    requires |resolved| == |rescaled| == |tasks| == |ids| && Ids(resolved) == ids
    requires forall k :: 0 <= k < |resolved| ==> Elems(resolved[k].dependsOnIds) <= Elems(ids)
    requires forall k :: 0 <= k < |resolved| ==>
      rescaled[k] == resolved[k].(durationDays := rescaled[k].durationDays) && rescaled[k].durationDays >= 1
    requires forall k :: 0 <= k < |resolved| ==>
      tasks[k] == rescaled[k].(dependsOnIds := tasks[k].dependsOnIds)
    requires AnyDeps(rescaled) ==> tasks == rescaled
    requires !AnyDeps(rescaled) ==> IsChain(tasks)
    ensures Ids(tasks) == ids && Total(tasks) == Total(rescaled)
    ensures forall k :: 0 <= k < |tasks| ==>
      && tasks[k] == resolved[k].(durationDays := tasks[k].durationDays, dependsOnIds := tasks[k].dependsOnIds)
      && tasks[k].durationDays >= 1
      && Elems(tasks[k].dependsOnIds) <= Elems(ids)
    ensures AnyDeps(resolved) ==> forall k :: 0 <= k < |tasks| ==> tasks[k].dependsOnIds == resolved[k].dependsOnIds
    ensures !AnyDeps(resolved) ==> IsChain(tasks)
  {
    assert forall k :: 0 <= k < |tasks| ==> Ids(tasks)[k] == tasks[k].id == resolved[k].id == Ids(resolved)[k];
    forall k | 0 <= k < |tasks| ensures Elems(tasks[k].dependsOnIds) <= Elems(ids) {
      if tasks[k].dependsOnIds != rescaled[k].dependsOnIds {
        assert tasks[k].dependsOnIds == [tasks[k - 1].id] && tasks[k - 1].id == ids[k - 1];
      }
    }
    SameDurationsSameTotal(rescaled, tasks);
    assert AnyDeps(rescaled) <==> AnyDeps(resolved) by {
      assert forall k :: 0 <= k < |tasks| ==> rescaled[k].dependsOnIds == resolved[k].dependsOnIds;
    }
  }

  /** The planning pipeline on given drafts: normalise and resolve, rescale
      to the timeframe when there is one, and chain the tasks when none
      has a dependency. */
  method PlanDrafts(drafts: seq<Draft>, ids: seq<Id>, timeframe: Option<int>) returns (tasks: seq<Task>)
    requires |ids| == |drafts|
    requires timeframe.Some? ==> timeframe.value >= 1
    ensures var resolved := Resolved(drafts, ids);
      && |tasks| == |resolved|
      && Ids(tasks) == ids
      && forall k :: 0 <= k < |tasks| ==>
        && tasks[k] == resolved[k].(durationDays := tasks[k].durationDays,
                                    dependsOnIds := tasks[k].dependsOnIds)
        && tasks[k].durationDays >= 1
        && Elems(tasks[k].dependsOnIds) <= Elems(ids)
    ensures timeframe.Some? && |tasks| > 0 ==> Total(tasks) >= timeframe.value
    ensures timeframe.Some? && 0 < |tasks| <= timeframe.value ==> Total(tasks) == timeframe.value
    ensures var resolved := Resolved(drafts, ids);
      AnyDeps(resolved) ==>
        forall k :: 0 <= k < |tasks| ==> tasks[k].dependsOnIds == resolved[k].dependsOnIds
    ensures !AnyDeps(Resolved(drafts, ids)) ==> IsChain(tasks)
  {
    var resolved := ResolveDrafts(drafts, ids);
    var rescaled := RescaleExactly(resolved, timeframe);
    tasks := ChainIfUnlinked(rescaled);
    PipelineKeeps(drafts, ids, timeframe, resolved, rescaled, tasks);
  }

  /** The pipeline's three steps together give what PlanDrafts promises. */
  lemma PipelineKeeps(drafts: seq<Draft>, ids: seq<Id>, timeframe: Option<int>,
                      resolved: seq<Task>, rescaled: seq<Task>, tasks: seq<Task>)
    requires |ids| == |drafts|
    requires timeframe.Some? ==> timeframe.value >= 1
    requires resolved == Resolved(drafts, ids) && Ids(resolved) == ids
    requires forall k :: 0 <= k < |drafts| ==> Elems(resolved[k].dependsOnIds) <= Elems(ids)
    requires rescaled == RescaledExactlyTo(resolved, timeframe)
    requires |tasks| == |rescaled|
    requires forall k :: 0 <= k < |rescaled| ==> tasks[k] == rescaled[k].(dependsOnIds := tasks[k].dependsOnIds)
    requires AnyDeps(rescaled) ==> tasks == rescaled
    requires !AnyDeps(rescaled) ==> IsChain(tasks)
    ensures Ids(tasks) == ids
    ensures forall k :: 0 <= k < |tasks| ==>
      && tasks[k] == resolved[k].(durationDays := tasks[k].durationDays, dependsOnIds := tasks[k].dependsOnIds)
      && tasks[k].durationDays >= 1
      && Elems(tasks[k].dependsOnIds) <= Elems(ids)
    ensures timeframe.Some? && |tasks| > 0 ==> Total(tasks) >= timeframe.value
    ensures timeframe.Some? && 0 < |tasks| <= timeframe.value ==> Total(tasks) == timeframe.value
    ensures AnyDeps(resolved) ==> forall k :: 0 <= k < |tasks| ==> tasks[k].dependsOnIds == resolved[k].dependsOnIds
    ensures !AnyDeps(resolved) ==> IsChain(tasks)
  {
    RescaleKeeps(resolved, timeframe, rescaled);
    ChainKeeps(resolved, rescaled, tasks, ids);
  }

  /** What the as-written pipeline makes of `drafts`: one task per draft
      with the given ids and only in-batch dependencies, the durations of
      the rescaling as written, never under the timeframe, meeting it
      exactly when no rescaling was needed or the last task absorbs the
      drift, and the drafts' own links kept or else a chain. */
  predicate PlannedAsWritten(tasks: seq<Task>, drafts: seq<Draft>, ids: seq<Id>, timeframe: Option<int>)
    requires |ids| == |drafts|
    requires timeframe.Some? ==> timeframe.value >= 1
  {
    var resolved := Resolved(drafts, ids);
    && |tasks| == |resolved|
    && Ids(tasks) == ids
    && (forall k :: 0 <= k < |tasks| ==>
      && tasks[k] == resolved[k].(durationDays := tasks[k].durationDays,
                                  dependsOnIds := tasks[k].dependsOnIds)
      && tasks[k].durationDays >= 1
      && Elems(tasks[k].dependsOnIds) <= Elems(ids))
    && Durations(tasks) == Durations(RescaledTo(resolved, timeframe))
    && (!NeedsRescale(resolved, timeframe) ==> Durations(tasks) == Durations(resolved))
    && (timeframe.Some? && |tasks| > 0 ==> Total(tasks) >= timeframe.value)
    && (NeedsRescale(resolved, timeframe) ==>
      (Total(tasks) == timeframe.value <==> LastAbsorbsDrift(resolved, timeframe.value)))
    && (AnyDeps(resolved) ==>
      forall k :: 0 <= k < |tasks| ==> tasks[k].dependsOnIds == resolved[k].dependsOnIds)
    && (!AnyDeps(resolved) ==> IsChain(tasks))
  }

  /** The planning pipeline as written: the same steps as PlanDrafts,
      with the rescaling of the planner as it stands. The timeframe is met
      exactly when no rescaling was needed or the last task absorbs the
      drift; otherwise the plan runs over it. */
  method PlanDraftsAsWritten(drafts: seq<Draft>, ids: seq<Id>, timeframe: Option<int>) returns (tasks: seq<Task>)
    requires |ids| == |drafts|
    requires timeframe.Some? ==> timeframe.value >= 1
    ensures PlannedAsWritten(tasks, drafts, ids, timeframe)
  {
    var resolved := ResolveDrafts(drafts, ids);
    var rescaled := Rescale(resolved, timeframe);
    tasks := ChainIfUnlinked(rescaled);
    AsWrittenPipelineKeeps(drafts, ids, timeframe, resolved, rescaled, tasks);
  }

  /** The as-written pipeline's three steps together give what
      PlanDraftsAsWritten promises. */
  lemma AsWrittenPipelineKeeps(drafts: seq<Draft>, ids: seq<Id>, timeframe: Option<int>,
                               resolved: seq<Task>, rescaled: seq<Task>, tasks: seq<Task>)
    requires |ids| == |drafts|
    requires timeframe.Some? ==> timeframe.value >= 1
    requires resolved == Resolved(drafts, ids) && Ids(resolved) == ids
    requires forall k :: 0 <= k < |drafts| ==> Elems(resolved[k].dependsOnIds) <= Elems(ids)
    requires rescaled == RescaledTo(resolved, timeframe)
    requires |tasks| == |rescaled|
    requires forall k :: 0 <= k < |rescaled| ==> tasks[k] == rescaled[k].(dependsOnIds := tasks[k].dependsOnIds)
    requires AnyDeps(rescaled) ==> tasks == rescaled
    requires !AnyDeps(rescaled) ==> IsChain(tasks)
    ensures Ids(tasks) == ids
    ensures forall k :: 0 <= k < |tasks| ==>
      && tasks[k] == resolved[k].(durationDays := tasks[k].durationDays, dependsOnIds := tasks[k].dependsOnIds)
      && tasks[k].durationDays >= 1
      && Elems(tasks[k].dependsOnIds) <= Elems(ids)
    ensures Durations(tasks) == Durations(rescaled)
    ensures !NeedsRescale(resolved, timeframe) ==> Durations(tasks) == Durations(resolved)
    ensures timeframe.Some? && |tasks| > 0 ==> Total(tasks) >= timeframe.value
    ensures NeedsRescale(resolved, timeframe) ==>
      (Total(tasks) == timeframe.value <==> LastAbsorbsDrift(resolved, timeframe.value))
    ensures AnyDeps(resolved) ==> forall k :: 0 <= k < |tasks| ==> tasks[k].dependsOnIds == resolved[k].dependsOnIds
    ensures !AnyDeps(resolved) ==> IsChain(tasks)
  {
    RescaleAsWrittenKeeps(resolved, timeframe, rescaled);
    ChainKeeps(resolved, rescaled, tasks, ids);
  }

  /** Plans the tasks for `goal` as the planner does it, with the
      rescaling as written. */
  method PlanTasksAsWritten(goal: string, generated: Option<seq<Draft>>, ids: seq<Id>) returns (tasks: seq<Task>)
    requires |ids| == |Drafts(goal, generated)| && NoDup(ids)
    ensures PlannedAsWritten(tasks, Drafts(goal, generated), ids, ExtractTimeframeDays(goal))
    ensures generated.None? ==> IsChain(tasks) && Scheduler.Schedulable(tasks)
  {
    var drafts := if generated.Some? then generated.value else HeuristicDraft(goal);
    var timeframeDays := ExtractTimeframeDays(goal);
    tasks := PlanDraftsAsWritten(drafts, ids, timeframeDays);
    if generated.None? {
      TemplateHasNoDeps(goal, ids);
      ChainIsSchedulable(tasks);
    }
  }

  /** Plans the tasks for `goal`: one task per draft, in draft order, with
      the given ids. `generated` is the reply of the text-generation
      service, none when it gave none; `ids` are the fresh task ids. The
      keyword template always yields a chain the scheduler accepts. */
  method PlanTasks(goal: string, generated: Option<seq<Draft>>, ids: seq<Id>) returns (tasks: seq<Task>)
    requires |ids| == |Drafts(goal, generated)| && NoDup(ids)
    ensures var resolved := Resolved(Drafts(goal, generated), ids);
      && |tasks| == |resolved|
      && Ids(tasks) == ids
      && forall k :: 0 <= k < |tasks| ==>
        && tasks[k] == resolved[k].(durationDays := tasks[k].durationDays,
                                    dependsOnIds := tasks[k].dependsOnIds)
        && tasks[k].durationDays >= 1
        && Elems(tasks[k].dependsOnIds) <= Elems(ids)
    ensures var timeframe := ExtractTimeframeDays(goal);
      timeframe.Some? && |tasks| > 0 ==> Total(tasks) >= timeframe.value
    ensures var timeframe := ExtractTimeframeDays(goal);
      timeframe.Some? && 0 < |tasks| <= timeframe.value ==> Total(tasks) == timeframe.value
    ensures var resolved := Resolved(Drafts(goal, generated), ids);
      AnyDeps(resolved) ==>
        forall k :: 0 <= k < |tasks| ==> tasks[k].dependsOnIds == resolved[k].dependsOnIds
    ensures !AnyDeps(Resolved(Drafts(goal, generated), ids)) ==> IsChain(tasks)
    ensures generated.None? ==> IsChain(tasks) && Scheduler.Schedulable(tasks)
  {
    var drafts := if generated.Some? then generated.value else HeuristicDraft(goal);
    var timeframeDays := ExtractTimeframeDays(goal);
    tasks := PlanDrafts(drafts, ids, timeframeDays);
    if generated.None? {
      TemplateHasNoDeps(goal, ids);
      ChainIsSchedulable(tasks);
    }
  }

  lemma {:induction false} SameDurationsSameTotal(a: seq<Task>, b: seq<Task>)
    requires |a| == |b| && forall k :: 0 <= k < |a| ==> a[k].durationDays == b[k].durationDays
    ensures Total(a) == Total(b)
  {
    if a != [] {
      SameDurationsSameTotal(a[..|a| - 1], b[..|b| - 1]);
    }
  }
}
