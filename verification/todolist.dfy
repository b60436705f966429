/**
 * The list of the to-do application (todolist.c): a fixed array of 100 tasks
 * with a count, updated in place by add, complete, delete and edit; the category
 * filter of the view; and the "YYYY-MM-DD" deadline parser.
 */
module TodoList {
  import opened Wrappers
  import opened CLib

  /** MAX_TASKS */
  const MaxTasks: nat := 100

  /** A task: `completed` is the C int that only ever holds 0 or 1. */
  datatype Task = Task(
    description: string,
    deadline: string,
    priority: int,
    completed: bool,
    category: string)

  /**
   * `s[strcspn(s, "\n")] = '\0'`: the text up to the first newline, which is how the
   * program trims a line read by fgets.
   */
  function UpToNewline(s: string): (r: string)
    ensures r <= s && '\n' !in r
    ensures |r| < |s| ==> s[|r|] == '\n'
  {
    if |s| == 0 || s[0] == '\n' then [] else [s[0]] + UpToNewline(s[1..])
  }

  /** Trimming twice is trimming once, and a line without a newline is kept whole. */
  lemma UpToNewlineIdempotent(s: string)
    ensures UpToNewline(UpToNewline(s)) == UpToNewline(s)
    ensures '\n' !in s ==> UpToNewline(s) == s
  {
    NoNewlineKept(UpToNewline(s));
    NoNewlineKept(s);
  }

  lemma {:induction false} NoNewlineKept(s: string)
    ensures '\n' !in s ==> UpToNewline(s) == s
  {
    if |s| > 0 && '\n' !in s {
      assert s[0] != '\n';
      assert '\n' !in s[1..];
      NoNewlineKept(s[1..]);
      assert s == [s[0]] + s[1..];
    }
  }

  /** A new task as `addTask` builds it from the lines it reads: trimmed, and not completed. */
  function NewTask(description: string, deadline: string, priority: int, category: string): (t: Task)
    ensures !t.completed && t.priority == priority
    ensures t.description <= description && '\n' !in t.description
    ensures t.deadline <= deadline && '\n' !in t.deadline
    ensures t.category <= category && '\n' !in t.category
    ensures '\n' !in description ==> t.description == description
    ensures t.description == UpToNewline(description)
    ensures t.deadline == UpToNewline(deadline)
    ensures t.category == UpToNewline(category)
  {
    NoNewlineKept(description);
    Task(UpToNewline(description), UpToNewline(deadline), priority, false, UpToNewline(category))
  }

  /** The list after an add: the new task at the end, unless the list is full. */
  function Added(ts: seq<Task>, t: Task): seq<Task> {
    if |ts| >= MaxTasks then ts else ts + [t]
  }

  /** The list after `completeTask`: the numbered task (1-based) marked done, if there is one. */
  function Completed(ts: seq<Task>, number: int): seq<Task> {
    if number < 1 || number > |ts| then ts
    else ts[number - 1 := ts[number - 1].(completed := true)]
  }

  /** The list with the entry at index k removed and the later ones moved down. */
  function RemoveAt(ts: seq<Task>, k: nat): (r: seq<Task>)
    requires k < |ts|
    ensures |r| == |ts| - 1
    ensures forall i :: 0 <= i < k ==> r[i] == ts[i]
    ensures forall i :: k <= i < |r| ==> r[i] == ts[i + 1]
  {
    ts[..k] + ts[k + 1..]
  }

  /** The list after `deleteTask`: the numbered task removed, if there is one. */
  function Deleted(ts: seq<Task>, number: int): seq<Task> {
    if number < 1 || number > |ts| then ts else RemoveAt(ts, number - 1)
  }

  /**
   * A task after `editTask`: a new description or deadline unless the line read is
   * just "\n", and a new priority only when it is 1, 2 or 3.
   */
  function Edited(t: Task, descriptionLine: string, deadlineLine: string, newPriority: int): (e: Task)
    ensures e.category == t.category && e.completed == t.completed
    ensures e.description == t.description || (e.description <= descriptionLine && '\n' !in e.description)
    ensures e.deadline == t.deadline || (e.deadline <= deadlineLine && '\n' !in e.deadline)
    ensures e.priority == t.priority || 1 <= e.priority <= 3
    ensures descriptionLine == "\n" ==> e.description == t.description
    ensures descriptionLine != "\n" ==> e.description == UpToNewline(descriptionLine)
    ensures deadlineLine == "\n" ==> e.deadline == t.deadline
    ensures deadlineLine != "\n" ==> e.deadline == UpToNewline(deadlineLine)
  {
    t.(description := if descriptionLine == "\n" then t.description else UpToNewline(descriptionLine),
       deadline := if deadlineLine == "\n" then t.deadline else UpToNewline(deadlineLine),
       priority := if 1 <= newPriority <= 3 then newPriority else t.priority)
  }

  /** The list after `editTask`: the numbered task edited, if there is one. */
  function EditedList(ts: seq<Task>, number: int, descriptionLine: string, deadlineLine: string,
                      newPriority: int): seq<Task>
  {
    if number < 1 || number > |ts| then ts
    else ts[number - 1 := Edited(ts[number - 1], descriptionLine, deadlineLine, newPriority)]
  }

  // ---------------------------------------------------------------------------
  // What the operations promise about the list.

  /** An add keeps the list within capacity and every earlier task where it was. */
  lemma AddKeepsEarlier(ts: seq<Task>, t: Task)
    requires |ts| <= MaxTasks
    ensures var r := Added(ts, t);
      |r| <= MaxTasks && ts <= r &&
      (|ts| < MaxTasks ==> |r| == |ts| + 1 && r[|ts|] == t)
  {
  }

  /** Deleting a task just added gives back the list as it was. */
  lemma DeleteUndoesAdd(ts: seq<Task>, t: Task)
    requires |ts| < MaxTasks
    ensures Deleted(Added(ts, t), |ts| + 1) == ts
  {
    assert (ts + [t])[..|ts|] == ts;
  }

  /** A delete removes one task and keeps the rest: the multiset loses exactly that task. */
  lemma DeleteRemovesOne(ts: seq<Task>, number: int)
    requires 1 <= number <= |ts|
    ensures multiset(Deleted(ts, number)) + multiset{ts[number - 1]} == multiset(ts)
  {
    var k := number - 1;
    assert ts == ts[..k] + [ts[k]] + ts[k + 1..];
  }

  /** Completing touches one flag: every other task and every other field stay, and doing it twice is doing it once. */
  lemma CompleteTouchesOneFlag(ts: seq<Task>, number: int)
    ensures var r := Completed(ts, number);
      |r| == |ts| &&
      (forall i :: 0 <= i < |ts| && i != number - 1 ==> r[i] == ts[i]) &&
      (1 <= number <= |ts| ==>
        r[number - 1].completed && r[number - 1] == ts[number - 1].(completed := true)) &&
      Completed(r, number) == r
  {
  }

  /** Keeping both lines and entering a priority outside 1-3 leaves a task as it was. */
  lemma EditKeep(t: Task, p: int)
    requires !(1 <= p <= 3)
    ensures Edited(t, "\n", "\n", p) == t
  {
  }

  /** A priority of 1, 2 or 3 is taken whatever the lines say, and any other keeps the old one. */
  lemma EditPriority(t: Task, descriptionLine: string, deadlineLine: string, p: int)
    ensures 1 <= p <= 3 ==> Edited(t, descriptionLine, deadlineLine, p).priority == p
    ensures !(1 <= p <= 3) ==> Edited(t, descriptionLine, deadlineLine, p).priority == t.priority
  {
  }

  /**
   * An edit never touches the category or the completion flag, leaves no newline in
   * the text fields it writes, and editing again with the same input changes nothing.
   */
  lemma EditProps(t: Task, descriptionLine: string, deadlineLine: string, newPriority: int)
    ensures var e := Edited(t, descriptionLine, deadlineLine, newPriority);
      e.category == t.category && e.completed == t.completed &&
      (descriptionLine != "\n" ==> '\n' !in e.description) &&
      (deadlineLine != "\n" ==> '\n' !in e.deadline) &&
      Edited(e, descriptionLine, deadlineLine, newPriority) == e
  {
    UpToNewlineIdempotent(descriptionLine);
    UpToNewlineIdempotent(deadlineLine);
  }

  /** An edit of the list changes at most the numbered task. */
  lemma EditTouchesOneTask(ts: seq<Task>, number: int, descriptionLine: string, deadlineLine: string,
                           newPriority: int)
    ensures var r := EditedList(ts, number, descriptionLine, deadlineLine, newPriority);
      |r| == |ts| && forall i :: 0 <= i < |ts| && i != number - 1 ==> r[i] == ts[i]
  {
  }

  /** What the shift loop of `deleteTask` leaves in the array, as a removal from the list. */
  lemma ShiftedLeft(a: seq<Task>, b: seq<Task>, k: nat, n: nat)
    requires k < n <= |a| == |b|
    requires forall i :: 0 <= i < k ==> b[i] == a[i]
    requires forall i :: k <= i < n - 1 ==> b[i] == a[i + 1]
    requires forall i :: n - 1 <= i < |b| ==> b[i] == a[i]
    ensures b[..n - 1] == RemoveAt(a[..n], k) && b[n - 1..] == a[n - 1..]
    ensures b[..n - 1] == Deleted(a[..n], k + 1)
  {
  }

  // ---------------------------------------------------------------------------
  // The array of tasks, updated in place.

  class TaskList {
    var tasks: array<Task>
    var count: int

    ghost predicate Valid()
      reads this
    {
      tasks.Length == MaxTasks && 0 <= count <= tasks.Length
    }

    /** Tasks in use: the first `count` slots. */
    function Contents(): seq<Task>
      reads this, tasks
      requires Valid()
    {
      tasks[..count]
    }

    /** The empty list `main` starts with (before loading the save file, which is not modelled). */
    constructor ()
      ensures Valid() && fresh(tasks) && Contents() == []
    {
      tasks := new Task[MaxTasks](_ => Task("", "", 0, false, ""));
      count := 0;
    }

    /** `addTask`: store the new task in the next free slot, unless all 100 are used. */
    method AddTask(description: string, deadline: string, priority: int, category: string)
      returns (added: bool)
      requires Valid()
      modifies this`count, tasks
      ensures Valid()
      ensures added <==> old(count) < MaxTasks
      ensures added ==>
        count == old(count) + 1 &&
        tasks[..] == old(tasks[..])[old(count) := NewTask(description, deadline, priority, category)]
      ensures !added ==> count == old(count) && tasks[..] == old(tasks[..])
      ensures Contents() == Added(old(Contents()), NewTask(description, deadline, priority, category))
    {
      if count >= MaxTasks {
        return false;
      }
      tasks[count] := NewTask(description, deadline, priority, category);
      count := count + 1;
      return true;
    }

    /** `completeTask`: mark task number `number` (1-based) as done; an invalid number changes nothing. */
    method CompleteTask(number: int) returns (done: bool)
      requires Valid()
      modifies tasks
      ensures Valid()
      ensures done <==> 1 <= number <= count
      ensures done ==> tasks[..] == old(tasks[..])[number - 1 := old(tasks[number - 1]).(completed := true)]
      ensures !done ==> tasks[..] == old(tasks[..])
      ensures Contents() == Completed(old(Contents()), number)
    {
      if number < 1 || number > count {
        return false;
      }
      tasks[number - 1] := tasks[number - 1].(completed := true);
      return true;
    }

    /**
     * `deleteTask`: shift every task after the numbered one a slot to the left, then
     * shrink the count. The last old slot keeps its old task, as in the program.
     */
    method DeleteTask(number: int) returns (deleted: bool)
      requires Valid()
      modifies this`count, tasks
      ensures Valid()
      ensures deleted <==> 1 <= number <= old(count)
      ensures deleted ==>
        count == old(count) - 1 &&
        tasks[..count] == RemoveAt(old(tasks[..count]), number - 1) &&
        tasks[count..] == old(tasks[..])[count..]
      ensures !deleted ==> count == old(count) && tasks[..] == old(tasks[..])
      ensures Contents() == Deleted(old(Contents()), number)
    {
      if number < 1 || number > count {
        return false;
      }
      var i := number - 1;
      while i < count - 1
        modifies tasks
        invariant number - 1 <= i <= count - 1
        invariant forall k :: 0 <= k < number - 1 ==> tasks[k] == old(tasks[k])
        invariant forall k :: number - 1 <= k < i ==> tasks[k] == old(tasks[k + 1])
        invariant forall k :: i <= k < tasks.Length ==> tasks[k] == old(tasks[k])
      {
        tasks[i] := tasks[i + 1];
        i := i + 1;
      }
      ghost var before := old(tasks[..]);
      assert old(tasks[..count]) == before[..count];
      ShiftedLeft(before, tasks[..], number - 1, count);
      count := count - 1;
      assert tasks[..count] == tasks[..][..count] && tasks[count..] == tasks[..][count..];
      return true;
    }

    /**
     * `editTask`: on a non-empty list and a valid number, edit that task with the lines
     * and the priority read; otherwise nothing changes.
     */
    method EditTask(number: int, descriptionLine: string, deadlineLine: string, newPriority: int)
      returns (edited: bool)
      requires Valid()
      modifies tasks
      ensures Valid()
      ensures edited <==> count > 0 && 1 <= number <= count
      ensures edited ==>
        tasks[..] == old(tasks[..])[number - 1 :=
          Edited(old(tasks[number - 1]), descriptionLine, deadlineLine, newPriority)]
      ensures !edited ==> tasks[..] == old(tasks[..])
      ensures Contents() == EditedList(old(Contents()), number, descriptionLine, deadlineLine, newPriority)
    {
      if count == 0 {
        return false;
      }
      if number < 1 || number > count {
        return false;
      }
      var t := tasks[number - 1];
      tasks[number - 1] := Edited(t, descriptionLine, deadlineLine, newPriority);
      return true;
    }

    /** The filtering loop of `viewTasks`: what it lists for the filter choice, in array order. */
    method ViewTasks(choice: int) returns (shown: seq<Task>)
      requires Valid()
      ensures shown == Visible(Contents(), FilterFor(choice))
    {
      var filter := FilterFor(choice);
      shown := [];
      for i := 0 to count
        invariant shown == Visible(tasks[..i], filter)
      {
        assert tasks[..i + 1][..i] == tasks[..i];
        if filter == "ALL" || SameIgnoringCase(tasks[i].category, filter) {
          shown := shown + [tasks[i]];
        }
      }
      assert tasks[..count] == Contents();
    }
  }

  // ---------------------------------------------------------------------------
  // The category filter of `viewTasks`.

  /** The filter for a menu choice: 1-4 name a category, anything else means all. */
  function FilterFor(choice: int): (f: string)
    ensures choice == 1 ==> f == "Work"
    ensures choice == 2 ==> f == "Study"
    ensures choice == 3 ==> f == "Personal"
    ensures choice == 4 ==> f == "Other"
    ensures !(1 <= choice <= 4) ==> f == "ALL"
  {
    match choice
    case 1 => "Work"
    case 2 => "Study"
    case 3 => "Personal"
    case 4 => "Other"
    case _ => "ALL"
  }

  /** strcasecmp(a, b) == 0: the same length and the same letters up to case. */
  predicate SameIgnoringCase(a: string, b: string): (r: bool)
    ensures r ==> |a| == |b|
    ensures a == b ==> r
  {
    |a| == |b| && forall i :: 0 <= i < |a| ==> ToLower(a[i]) == ToLower(b[i])
  }

  /** Whether the view lists a task under a filter. */
  predicate Shown(filter: string, t: Task) {
    filter == "ALL" || SameIgnoringCase(t.category, filter)
  }

  /** What the view lists, in order. */
  function Visible(ts: seq<Task>, filter: string): seq<Task> {
    if |ts| == 0 then []
    else Visible(ts[..|ts| - 1], filter) + (if Shown(filter, ts[|ts| - 1]) then [ts[|ts| - 1]] else [])
  }

  /** The view lists exactly those tasks that pass the filter. */
  lemma {:induction false} VisibleExactly(ts: seq<Task>, filter: string)
    ensures forall t :: t in Visible(ts, filter) <==> t in ts && Shown(filter, t)
    ensures |Visible(ts, filter)| <= |ts|
    decreases |ts|
  {
    if |ts| > 0 {
      var init := ts[..|ts| - 1];
      VisibleExactly(init, filter);
      assert ts == init + [ts[|ts| - 1]];
    }
  }

  /** Under a choice outside 1-4 the view lists every task. */
  lemma {:induction false} OtherChoicesShowAll(ts: seq<Task>, choice: int)
    requires !(1 <= choice <= 4)
    ensures Visible(ts, FilterFor(choice)) == ts
    decreases |ts|
  {
    assert FilterFor(choice) == "ALL";
    if |ts| > 0 {
      OtherChoicesShowAll(ts[..|ts| - 1], choice);
      assert ts == ts[..|ts| - 1] + [ts[|ts| - 1]];
    }
  }

  /** The category matches up to case but not by prefix: "WORK" is shown under Work, "Workshop" is not. */
  lemma CategoryMatching(t: Task)
    ensures t.category == "WORK" ==> Shown(FilterFor(1), t)
    ensures t.category == "Workshop" ==> !Shown(FilterFor(1), t)
  {
    if t.category == "WORK" {
      assert ToLower('W') == 'w' && ToLower('O') == 'o' && ToLower('R') == 'r' && ToLower('K') == 'k';
    }
  }

  // ---------------------------------------------------------------------------
  // `parseDate`: sscanf(dateStr, "%d-%d-%d", ...) into a zeroed struct tm.

  /** The fields of struct tm that `parseDate` writes. */
  datatype Tm = Tm(year: int, mon: int, mday: int, hour: int, min: int, sec: int)

  /** What is left of s once its leading white space is skipped. */
  function SkipSpace(s: string): string {
    if |s| > 0 && IsSpace(s[0]) then SkipSpace(s[1..]) else s
  }

  /** The run of decimal digits that s starts with, and the text after it. */
  function SplitDigits(s: string): (string, string) {
    if |s| > 0 && IsDigit(s[0]) then
      var (d, rest) := SplitDigits(s[1..]);
      ([s[0]] + d, rest)
    else ([], s)
  }

  /** The value of a run of decimal digits (the scanner applies it to nothing else). */
  function DigitsValue(d: string): nat {
    if |d| == 0 then 0
    else DigitsValue(d[..|d| - 1]) * 10 + (if IsDigit(d[|d| - 1]) then DigitValue(d[|d| - 1]) else 0)
  }

  /**
   * The "%d" conversion at the start of s: skip white space, an optional sign, then one
   * or more digits. Some(value, what follows) on success, None when no digit follows.
   */
  function ScanInt(s: string): Option<(int, string)> {
    var t := SkipSpace(s);
    var negative := |t| > 0 && t[0] == '-';
    var u := if |t| > 0 && (t[0] == '-' || t[0] == '+') then t[1..] else t;
    var (d, rest) := SplitDigits(u);
    if |d| == 0 then None
    else
      var n: int := DigitsValue(d);
      Some((if negative then -n else n, rest))
  }

  /**
   * The values a format of `n` "%d" conversions joined by literal dashes stores:
   * sscanf stops at the first conversion that finds no number or the first dash that
   * is missing.
   */
  function ScanFields(s: string, n: nat): (r: seq<int>)
    ensures |r| <= n
    decreases n
  {
    if n == 0 then []
    else
      match ScanInt(s)
      case None => []
      case Some((v, rest)) =>
        if n > 1 && |rest| > 0 && rest[0] == '-' then [v] + ScanFields(rest[1..], n - 1) else [v]
  }

  /** The i-th stored field, or the 0 of the zeroed struct when sscanf did not reach it. */
  function FieldOr0(r: seq<int>, i: nat): int {
    if i < |r| then r[i] else 0
  }

  /** `parseDate`: years since 1900, months from 0, and midnight. */
  function ParseDate(s: string): (t: Tm)
    ensures t.hour == 0 && t.min == 0 && t.sec == 0
  {
    var r := ScanFields(s, 3);
    Tm(FieldOr0(r, 0) - 1900, FieldOr0(r, 1) - 1, FieldOr0(r, 2), 0, 0, 0)
  }

  /** The decimal digits of n, most significant first. */
  function Decimal(n: nat): (d: string)
    ensures |d| > 0
  {
    if n < 10 then [('0' as int + n) as char] else Decimal(n / 10) + [('0' as int + n % 10) as char]
  }

  /** Decimal writes only digits. */
  lemma {:induction false} DecimalDigits(n: nat)
    ensures forall k :: 0 <= k < |Decimal(n)| ==> IsDigit(Decimal(n)[k])
  {
    if n >= 10 {
      DecimalDigits(n / 10);
    }
  }

  /** Reading back the decimal digits of n gives n. */
  lemma {:induction false} DecimalValue(n: nat)
    ensures AllDigits(Decimal(n))
    ensures DigitsValue(Decimal(n)) == n
  {
    DecimalDigits(n);
    if n >= 10 {
      DecimalValue(n / 10);
      var d := Decimal(n);
      assert d[..|d| - 1] == Decimal(n / 10);
    }
  }

  predicate AllDigits(d: string) {
    forall k :: 0 <= k < |d| ==> IsDigit(d[k])
  }

  /** Text that does not start with a digit: the end, or a character that stops "%d". */
  predicate Stops(post: string) {
    |post| == 0 || !IsDigit(post[0])
  }

  /** The digit run of d + post is d when post does not start with a digit. */
  lemma {:induction false} SplitDigitsOf(d: string, post: string)
    requires AllDigits(d) && Stops(post)
    ensures SplitDigits(d + post) == (d, post)
  {
    if |d| > 0 {
      assert (d + post)[1..] == d[1..] + post;
      SplitDigitsOf(d[1..], post);
      assert [d[0]] + d[1..] == d;
    } else {
      assert d + post == post;
    }
  }

  /** "%d" reads a run of digits and leaves what follows it. */
  lemma ScanDigits(d: string, post: string)
    requires |d| > 0 && AllDigits(d) && Stops(post)
    ensures ScanInt(d + post) == Some((DigitsValue(d) as int, post))
  {
    assert (d + post)[0] == d[0];
    assert SkipSpace(d + post) == d + post;
    SplitDigitsOf(d, post);
  }

  /** A last field: a run of digits read by the format's final "%d". */
  lemma LastField(d: string, post: string)
    requires |d| > 0 && AllDigits(d) && Stops(post)
    ensures ScanFields(d + post, 1) == [DigitsValue(d) as int]
  {
    ScanDigits(d, post);
  }

  /** A field and the dash after it: the remaining fields are read from after the dash. */
  lemma FieldThenRest(d: string, tail: string, n: nat)
    requires |d| > 0 && AllDigits(d) && n > 1
    ensures ScanFields(d + ("-" + tail), n) == [DigitsValue(d) as int] + ScanFields(tail, n - 1)
  {
    ScanDigits(d, "-" + tail);
    assert ("-" + tail)[1..] == tail;
  }

  /**
   * Three runs of digits joined by dashes, followed by the end or by a non-digit, parse
   * to their values, shifted as struct tm counts them.
   */
  lemma ParseDateFields(y: string, m: string, d: string, post: string)
    requires |y| > 0 && |m| > 0 && |d| > 0 && AllDigits(y) && AllDigits(m) && AllDigits(d)
    requires Stops(post)
    ensures ParseDate(y + "-" + m + "-" + d + post) ==
      Tm(DigitsValue(y) - 1900, DigitsValue(m) - 1, DigitsValue(d), 0, 0, 0)
  {
    var t2 := d + post;
    var t1 := m + ("-" + t2);
    Joined(y, m, d, post);
    ThreeFields(y, m, d, post, t1, t2);
  }

  /** The date text regrouped from the right, field by field. */
  lemma Joined(y: string, m: string, d: string, post: string)
    ensures y + "-" + m + "-" + d + post == y + ("-" + (m + ("-" + (d + post))))
  {
  }

  /** The three fields, read from the right-grouped text. */
  lemma ThreeFields(y: string, m: string, d: string, post: string, t1: string, t2: string)
    requires |y| > 0 && |m| > 0 && |d| > 0 && AllDigits(y) && AllDigits(m) && AllDigits(d)
    requires Stops(post) && t2 == d + post && t1 == m + ("-" + t2)
    ensures ParseDate(y + ("-" + t1)) ==
      Tm(DigitsValue(y) - 1900, DigitsValue(m) - 1, DigitsValue(d), 0, 0, 0)
  {
    LastField(d, post);
    FieldThenRest(m, t2, 2);
    FieldThenRest(y, t1, 3);
  }

  /** A date written Y-M-D in decimal (and then the end or a non-digit) parses back to Y, M and D. */
  lemma ParseDateRoundTrip(year: nat, month: nat, day: nat, post: string)
    requires Stops(post)
    ensures ParseDate(Decimal(year) + "-" + Decimal(month) + "-" + Decimal(day) + post) ==
      Tm(year - 1900, month - 1, day, 0, 0, 0)
  {
    DecimalValue(year);
    DecimalValue(month);
    DecimalValue(day);
    ParseDateFields(Decimal(year), Decimal(month), Decimal(day), post);
  }

  /** The program's own example deadline: zero-padded fields read as decimal. */
  lemma ParseDateExample()
    ensures ParseDate("2025-06-30") == Tm(125, 5, 30, 0, 0, 0)
  {
    assert DigitsValue("2025") == 2025 by {
      assert "2025"[..3] == "202" && "202"[..2] == "20" && "20"[..1] == "2" && "2"[..0] == "";
    }
    assert DigitsValue("06") == 6 by {
      assert "06"[..1] == "0" && "0"[..0] == "";
    }
    assert DigitsValue("30") == 30 by {
      assert "30"[..1] == "3" && "3"[..0] == "";
    }
    assert "2025-06-30" == "2025" + "-" + "06" + "-" + "30" + "";
    ParseDateFields("2025", "06", "30", "");
  }

  /** Text that is not a date leaves the zeroed fields, shifted: year -1900, month -1, day 0. */
  lemma ParseDateOfText()
    ensures ParseDate("soon") == Tm(-1900, -1, 0, 0, 0, 0)
  {
    assert SkipSpace("soon") == "soon";
    assert SplitDigits("soon") == ([], "soon");
  }
}
