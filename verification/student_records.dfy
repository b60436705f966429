/**
 * The record keeping of the student record system (student_records.c): the roll number
 * format, the rules `addStudent` applies before it stores a record, delete by roll
 * number, the two searches and the CSV export. The binary record file is a sequence of
 * records; the console prompts become parameters.
 */
module StudentRecords {
  import opened Wrappers
  import opened CLib

  /** MAX_STUDENTS: the size of the in-memory array. */
  const MaxStudents := 100

  /** `struct Student` */
  datatype Student = Student(firstName: string, lastName: string, roll: string)

  // ---------------------------------------------------------------------------
  // `isValidRoll`

  /** A roll number is "AM" followed by exactly five decimal digits. */
  predicate ValidRoll(roll: string): (r: bool)
    ensures r ==> |roll| == 7 && forall k :: 0 <= k < |roll| ==> roll[k] != ',' && roll[k] != '\n' && roll[k] != ' '
  {
    |roll| == 7 && roll[0] == 'A' && roll[1] == 'M' && forall i :: 2 <= i < 7 ==> IsDigit(roll[i])
  }

  /** `isValidRoll`: the length, the prefix, then a loop over the five digit positions. */
  method IsValidRoll(roll: string) returns (ok: bool)
    ensures ok <==> ValidRoll(roll)
  {
    if |roll| != 7 {
      return false;
    }
    if roll[0] != 'A' || roll[1] != 'M' {
      return false;
    }
    for i := 2 to 7
      invariant forall k :: 2 <= k < i ==> IsDigit(roll[k])
    {
      if !IsDigit(roll[i]) {
        return false;
      }
    }
    return true;
  }

  /** The prompt's own example is valid; lower case, a short number or a letter among the digits is not. */
  lemma RollExamples()
    ensures ValidRoll("AM12345")
    ensures !ValidRoll("am12345") && !ValidRoll("AM1234") && !ValidRoll("AM12a45") && !ValidRoll("AM123456")
  {
    assert !IsDigit("AM12a45"[4]);
  }

  // ---------------------------------------------------------------------------
  // Rolls in the record file.

  /** Some record in `file` has roll number `roll`. */
  predicate HasRoll(file: seq<Student>, roll: string) {
    exists k :: 0 <= k < |file| && file[k].roll == roll
  }

  /** No two records share a roll number. */
  predicate UniqueRolls(file: seq<Student>) {
    forall i, j :: 0 <= i < j < |file| ==> file[i].roll != file[j].roll
  }

  /** Every record's roll number is valid. */
  predicate ValidRolls(file: seq<Student>) {
    forall k :: 0 <= k < |file| ==> ValidRoll(file[k].roll)
  }

  /** The duplicate check of `addStudent`: read the file until a record with the roll turns up. */
  method RollInFile(file: seq<Student>, roll: string) returns (found: bool)
    ensures found <==> HasRoll(file, roll)
  {
    for i := 0 to |file|
      invariant forall k :: 0 <= k < i ==> file[k].roll != roll
    {
      if file[i].roll == roll {
        return true;
      }
    }
    return false;
  }

  // ---------------------------------------------------------------------------
  // `addStudent`

  /** How `addStudent` ends. FileError: the record was kept in memory but the file could not be opened. */
  datatype AddOutcome = InvalidRoll | Duplicate | Full | FileError | Added

  /** The in-memory list and the record file. */
  datatype Records = Records(memory: seq<Student>, file: seq<Student>)

  /**
   * The rules of `addStudent`, in the program's order: the roll number's format, a
   * duplicate in the file, the capacity of the in-memory array, and whether the file
   * opens for appending (`canAppend`).
   */
  function Add(s: Student, r: Records, canAppend: bool): (res: (AddOutcome, Records))
    ensures res.1.memory == r.memory || res.1.memory == r.memory + [s]
    ensures res.0 == Added <==> res.1.file == r.file + [s]
    ensures res.0 != Added ==> res.1.file == r.file
    ensures |r.memory| <= MaxStudents ==> |res.1.memory| <= MaxStudents
  {
    if !ValidRoll(s.roll) then (InvalidRoll, r)
    else if HasRoll(r.file, s.roll) then (Duplicate, r)
    else if |r.memory| >= MaxStudents then (Full, r)
    else if !canAppend then (FileError, Records(r.memory + [s], r.file))
    else (Added, Records(r.memory + [s], r.file + [s]))
  }

  /** A rejected record changes neither the in-memory list nor the file. */
  lemma AddRejectsCleanly(s: Student, r: Records, canAppend: bool)
    ensures var (o, r') := Add(s, r, canAppend);
      (o == InvalidRoll <==> !ValidRoll(s.roll)) &&
      ((o == InvalidRoll || o == Duplicate || o == Full) ==> r' == r)
  {
  }

  /**
   * A record is stored only with a valid roll number that the file does not hold yet and
   * while the in-memory array has room; it then goes at the end of the list, and at the
   * end of the file too when the file opens.
   */
  lemma AddAppends(s: Student, r: Records, canAppend: bool)
    ensures var (o, r') := Add(s, r, canAppend);
      (o == Added || o == FileError <==>
        ValidRoll(s.roll) && !HasRoll(r.file, s.roll) && |r.memory| < MaxStudents) &&
      (o == Added <==>
        ValidRoll(s.roll) && !HasRoll(r.file, s.roll) && |r.memory| < MaxStudents && canAppend) &&
      (o == Added || o == FileError ==> r'.memory == r.memory + [s]) &&
      (o == Added ==> r'.file == r.file + [s]) &&
      (o != Added ==> r'.file == r.file)
  {
  }

  /** The file never holds two records with one roll number, nor an invalid one, when it starts that way. */
  lemma {:induction false} AddKeepsFileClean(s: Student, r: Records, canAppend: bool)
    requires UniqueRolls(r.file) && ValidRolls(r.file)
    ensures UniqueRolls(Add(s, r, canAppend).1.file) && ValidRolls(Add(s, r, canAppend).1.file)
  {
    var (o, r') := Add(s, r, canAppend);
    if o == Added {
      var f := r.file + [s];
      forall i, j | 0 <= i < j < |f|
        ensures f[i].roll != f[j].roll
      {
        if j == |r.file| {
          assert f[i] == r.file[i];
        }
      }
      forall k | 0 <= k < |f|
        ensures ValidRoll(f[k].roll)
      {
        if k < |r.file| {
          assert f[k] == r.file[k];
        }
      }
    }
  }

  /** Once stored, a roll number is refused the second time, whoever it is for. */
  lemma AddTwiceIsDuplicate(s: Student, t: Student, r: Records, canAppend: bool)
    requires Add(s, r, canAppend).0 == Added && t.roll == s.roll
    ensures Add(t, Add(s, r, canAppend).1, canAppend).0 == Duplicate
  {
    var f := r.file + [s];
    assert f[|r.file|].roll == t.roll;
  }

  // ---------------------------------------------------------------------------
  // `deleteStudent`

  /** The file without the records whose roll number is `roll`, the others in their order. */
  function WithoutRoll(file: seq<Student>, roll: string): (r: seq<Student>)
    ensures |r| <= |file|
    ensures forall k :: 0 <= k < |r| ==> r[k].roll != roll
    decreases |file|
  {
    if |file| == 0 then []
    else
      var last := file[|file| - 1];
      WithoutRoll(file[..|file| - 1], roll) + (if last.roll == roll then [] else [last])
  }

  /** Exactly the records with another roll number are kept. */
  lemma {:induction false} DeleteKeepsOthers(file: seq<Student>, roll: string, x: Student)
    ensures x in WithoutRoll(file, roll) <==> x in file && x.roll != roll
    decreases |file|
  {
    if |file| > 0 {
      var init := file[..|file| - 1];
      DeleteKeepsOthers(init, roll, x);
      assert file == init + [file[|file| - 1]];
    }
  }

  /** The kept records stay in order: deleting from a concatenation deletes from each part. */
  lemma {:induction false} DeleteSplits(a: seq<Student>, b: seq<Student>, roll: string)
    ensures WithoutRoll(a + b, roll) == WithoutRoll(a, roll) + WithoutRoll(b, roll)
    decreases |b|
  {
    if |b| == 0 {
      assert a + b == a;
    } else {
      var init, last := b[..|b| - 1], b[|b| - 1];
      var keep: seq<Student> := if last.roll == roll then [] else [last];
      DeleteSplits(a, init, roll);
      assert (a + b)[..|a + b| - 1] == a + init && (a + b)[|a + b| - 1] == last;
      assert WithoutRoll(a + b, roll) == WithoutRoll(a + init, roll) + keep;
      assert WithoutRoll(b, roll) == WithoutRoll(init, roll) + keep;
    }
  }

  /** Something was deleted exactly when some record had the roll number. */
  lemma {:induction false} DeleteFound(file: seq<Student>, roll: string)
    ensures |WithoutRoll(file, roll)| <= |file|
    ensures |WithoutRoll(file, roll)| < |file| <==> HasRoll(file, roll)
    decreases |file|
  {
    if |file| > 0 {
      var init := file[..|file| - 1];
      DeleteFound(init, roll);
      if HasRoll(init, roll) {
        var k :| 0 <= k < |init| && init[k].roll == roll;
        assert file[k] == init[k];
      }
      if HasRoll(file, roll) && file[|file| - 1].roll != roll {
        var k :| 0 <= k < |file| && file[k].roll == roll;
        assert init[k] == file[k];
      }
    }
  }

  /** Deleting a roll number the file does not hold leaves it as it was. */
  lemma {:induction false} DeleteAbsent(file: seq<Student>, roll: string)
    requires !HasRoll(file, roll)
    ensures WithoutRoll(file, roll) == file
    decreases |file|
  {
    if |file| > 0 {
      var init := file[..|file| - 1];
      forall k | 0 <= k < |init|
        ensures init[k].roll != roll
      {
        assert init[k] == file[k];
      }
      DeleteAbsent(init, roll);
      assert file == init + [file[|file| - 1]];
    }
  }

  /** Deleting the roll number of the record just stored gives back the file before the add. */
  lemma DeleteUndoesAdd(s: Student, r: Records, canAppend: bool)
    requires Add(s, r, canAppend).0 == Added
    ensures WithoutRoll(Add(s, r, canAppend).1.file, s.roll) == r.file
  {
    var f := r.file + [s];
    assert f[..|f| - 1] == r.file;
    DeleteAbsent(r.file, s.roll);
  }

  // ---------------------------------------------------------------------------
  // `searchStudent`

  /** Search by roll number: the first record with that roll number, if any. */
  function FirstWithRoll(file: seq<Student>, roll: string): Option<Student>
    decreases |file|
  {
    if |file| == 0 then None
    else if file[0].roll == roll then Some(file[0])
    else FirstWithRoll(file[1..], roll)
  }

  /** Search by last name: every record with that last name, in file order. */
  function WithLastName(file: seq<Student>, name: string): seq<Student>
    decreases |file|
  {
    if |file| == 0 then []
    else
      var last := file[|file| - 1];
      WithLastName(file[..|file| - 1], name) + (if last.lastName == name then [last] else [])
  }

  /** The search by roll number finds a record exactly when one has the roll, and then the earliest. */
  lemma {:induction false} FirstWithRollIsFirst(file: seq<Student>, roll: string)
    ensures FirstWithRoll(file, roll).Some? <==> HasRoll(file, roll)
    ensures FirstWithRoll(file, roll).Some? ==>
      exists i :: 0 <= i < |file| && file[i] == FirstWithRoll(file, roll).value && file[i].roll == roll &&
        forall k :: 0 <= k < i ==> file[k].roll != roll
    decreases |file|
  {
    if |file| > 0 && file[0].roll != roll {
      var rest := file[1..];
      FirstWithRollIsFirst(rest, roll);
      if HasRoll(file, roll) {
        var k :| 0 <= k < |file| && file[k].roll == roll;
        assert rest[k - 1] == file[k];
      }
      if HasRoll(rest, roll) {
        var k :| 0 <= k < |rest| && rest[k].roll == roll;
        assert file[k + 1] == rest[k];
      }
      if FirstWithRoll(rest, roll).Some? {
        var i :| 0 <= i < |rest| && rest[i] == FirstWithRoll(rest, roll).value && rest[i].roll == roll &&
          forall k :: 0 <= k < i ==> rest[k].roll != roll;
        assert file[i + 1] == rest[i];
        assert forall k :: 0 <= k < i + 1 ==> file[k].roll != roll by {
          forall k | 0 <= k < i + 1
            ensures file[k].roll != roll
          {
            if k > 0 {
              assert file[k] == rest[k - 1];
            }
          }
        }
      }
    }
  }

  /** With unique roll numbers the search by roll finds the one record that has it. */
  lemma UniqueRollFound(file: seq<Student>, i: nat)
    requires UniqueRolls(file) && i < |file|
    ensures FirstWithRoll(file, file[i].roll) == Some(file[i])
  {
    FirstWithRollIsFirst(file, file[i].roll);
  }

  /** The search by last name reports exactly the records with that last name. */
  lemma {:induction false} WithLastNameExactly(file: seq<Student>, name: string, x: Student)
    ensures x in WithLastName(file, name) <==> x in file && x.lastName == name
    decreases |file|
  {
    if |file| > 0 {
      var init := file[..|file| - 1];
      WithLastNameExactly(init, name, x);
      assert file == init + [file[|file| - 1]];
    }
  }

  /** The search by last name keeps file order: searching a concatenation searches each part. */
  lemma {:induction false} WithLastNameSplits(a: seq<Student>, b: seq<Student>, name: string)
    ensures WithLastName(a + b, name) == WithLastName(a, name) + WithLastName(b, name)
    decreases |b|
  {
    if |b| == 0 {
      assert a + b == a;
    } else {
      var init := b[..|b| - 1];
      WithLastNameSplits(a, init, name);
      assert (a + b)[..|a + b| - 1] == a + init;
    }
  }

  /** What one attempt reports: choice 1 searches by roll number, choice 2 by last name. */
  function Matches(choice: int, file: seq<Student>, query: string): seq<Student> {
    if choice == 1 then
      match FirstWithRoll(file, query)
      case Some(x) => [x]
      case None => []
    else WithLastName(file, query)
  }

  /**
   * The attempts from the k-th on: each reads the next query, and the first that
   * matches something ends the search. The result is what was reported and how many
   * queries were read.
   */
  function Attempts(choice: int, file: seq<Student>, queries: seq<string>, k: nat): (seq<Student>, nat)
    requires |queries| >= 3
    decreases 3 - k
  {
    if k >= 3 then ([], k)
    else
      var m := Matches(choice, file, queries[k]);
      if |m| > 0 then (m, k + 1) else Attempts(choice, file, queries, k + 1)
  }

  /** `searchStudent` with menu choice `choice` and the user's answers `queries`. */
  function Search(choice: int, file: seq<Student>, queries: seq<string>): (seq<Student>, nat)
    requires |queries| >= 3
  {
    if choice != 1 && choice != 2 then ([], 0) else Attempts(choice, file, queries, 0)
  }

  /**
   * At most three attempts: the search reports the matches of the first query that has
   * any, after reading exactly the queries up to it; otherwise it gives up after three
   * queries that match nothing.
   */
  lemma {:induction false} AttemptsOutcome(choice: int, file: seq<Student>, queries: seq<string>, k: nat)
    requires |queries| >= 3 && k <= 3
    ensures var (reported, used) := Attempts(choice, file, queries, k);
      k <= used <= 3 &&
      (forall j :: k <= j < used - 1 ==> Matches(choice, file, queries[j]) == []) &&
      (|reported| > 0 ==> used > k && reported == Matches(choice, file, queries[used - 1])) &&
      (|reported| == 0 ==> used == 3 && forall j :: k <= j < 3 ==> Matches(choice, file, queries[j]) == [])
    decreases 3 - k
  {
    if k < 3 && |Matches(choice, file, queries[k])| == 0 {
      assert Matches(choice, file, queries[k]) == [];
      assert Attempts(choice, file, queries, k) == Attempts(choice, file, queries, k + 1);
      AttemptsOutcome(choice, file, queries, k + 1);
    }
  }

  /** A search by roll number reports one record at most, one with that roll number. */
  lemma RollSearchReportsOne(file: seq<Student>, queries: seq<string>)
    requires |queries| >= 3
    ensures var (reported, used) := Search(1, file, queries);
      |reported| <= 1 && (|reported| == 1 ==> reported[0] in file && reported[0].roll == queries[used - 1])
  {
    AttemptsOutcome(1, file, queries, 0);
    var (reported, used) := Search(1, file, queries);
    if |reported| > 0 {
      FirstWithRollIsFirst(file, queries[used - 1]);
    }
  }

  // ---------------------------------------------------------------------------
  // `exportToCSV`

  /** The column names, and the header line. */
  const CsvTitle := "Roll,First Name,Last Name"
  const CsvHeader := CsvTitle + "\n"

  /** One record's line: roll, first name and last name joined by commas, no quoting. */
  function CsvLine(s: Student): string {
    s.roll + "," + s.firstName + "," + s.lastName + "\n"
  }

  /** The lines of the records, in file order. */
  function CsvRows(file: seq<Student>): string
    decreases |file|
  {
    if |file| == 0 then "" else CsvLine(file[0]) + CsvRows(file[1..])
  }

  /** The whole export. */
  function CsvText(file: seq<Student>): string {
    CsvHeader + CsvRows(file)
  }

  /** Adding a record adds its line at the end. */
  lemma {:induction false} CsvRowsAppend(file: seq<Student>, s: Student)
    ensures CsvRows(file + [s]) == CsvRows(file) + CsvLine(s)
    decreases |file|
  {
    if |file| == 0 {
      assert [s][1..] == [];
    } else {
      assert (file + [s])[1..] == file[1..] + [s];
      CsvRowsAppend(file[1..], s);
    }
  }

  /** A record whose fields hold no line break, and whose roll number and first name hold no comma. */
  predicate Plain(s: Student) {
    ',' !in s.roll && ',' !in s.firstName && '\n' !in s.roll && '\n' !in s.firstName && '\n' !in s.lastName
  }

  /** A record whose fields hold no line break. */
  predicate OneLine(s: Student) {
    '\n' !in s.roll && '\n' !in s.firstName && '\n' !in s.lastName
  }

  /** The export has one line per record and the header: as many line breaks as records plus one. */
  lemma {:induction false} CsvLineCount(file: seq<Student>)
    requires forall k :: 0 <= k < |file| ==> OneLine(file[k])
    ensures multiset(CsvText(file))['\n'] == |file| + 1
  {
    HeaderBreaks();
    BreaksAfter(CsvHeader, file);
  }

  /** One line break, then the records' lines: one more line break than records. */
  lemma BreaksAfter(header: string, file: seq<Student>)
    requires multiset(header)['\n'] == 1
    requires forall k :: 0 <= k < |file| ==> OneLine(file[k])
    ensures multiset(header + CsvRows(file))['\n'] == |file| + 1
  {
    RowsLineCount(file);
    assert multiset(header + CsvRows(file)) == multiset(header) + multiset(CsvRows(file));
  }

  lemma {:induction false} RowsLineCount(file: seq<Student>)
    requires forall k :: 0 <= k < |file| ==> OneLine(file[k])
    ensures multiset(CsvRows(file))['\n'] == |file|
    decreases |file|
  {
    if |file| > 0 {
      var s := file[0];
      assert OneLine(s);
      assert multiset(s.roll)['\n'] == 0 && multiset(s.firstName)['\n'] == 0 && multiset(s.lastName)['\n'] == 0;
      assert multiset(CsvLine(s))['\n'] == 1;
      RowsLineCount(file[1..]);
    }
  }

  // Reading an export back.

  /** The text up to the first `c`, or all of it. */
  function Field(s: string, c: char): string
    decreases |s|
  {
    if |s| == 0 || s[0] == c then "" else [s[0]] + Field(s[1..], c)
  }

  /** The text after the first `c`, or nothing. */
  function After(s: string, c: char): (t: string)
    ensures |s| > 0 ==> |t| < |s|
    decreases |s|
  {
    if |s| == 0 then "" else if s[0] == c then s[1..] else After(s[1..], c)
  }

  /** Cutting a + c + rest at its first c, when a has none, gives a and rest. */
  lemma {:induction false} Cut(a: string, c: char, rest: string)
    requires c !in a
    ensures Field(a + ([c] + rest), c) == a && After(a + ([c] + rest), c) == rest
    decreases |a|
  {
    if |a| == 0 {
      assert a + ([c] + rest) == [c] + rest;
    } else {
      assert (a + ([c] + rest))[1..] == a[1..] + ([c] + rest);
      Cut(a[1..], c, rest);
      assert [a[0]] + a[1..] == a;
    }
  }

  /** A line read back as a record: roll number, first name, and the rest is the last name. */
  function ParseLine(line: string): Student {
    var names := After(line, ',');
    Student(Field(names, ','), After(names, ','), Field(line, ','))
  }

  /** The lines of a text, each read back as a record. */
  function ParseRows(text: string): seq<Student>
    decreases |text|
  {
    if |text| == 0 then [] else [ParseLine(Field(text, '\n'))] + ParseRows(After(text, '\n'))
  }

  /** An export read back: the header skipped, then the records. */
  function ParseCsv(text: string): seq<Student> {
    ParseRows(After(text, '\n'))
  }

  /** A record's line, grouped for cutting at its commas and its line break. */
  lemma LineGrouped(s: Student, rest: string)
    ensures CsvLine(s) + rest == Record(s) + (['\n'] + rest)
  {
  }

  /** The column names hold no line break. */
  lemma TitleOneLine()
    ensures '\n' !in CsvTitle
  {
  }

  /** The header is one line: reading past its line break leaves what follows it. */
  lemma HeaderCut(rest: string)
    ensures After(CsvHeader + rest, '\n') == rest
  {
    TitleOneLine();
    assert CsvHeader + rest == CsvTitle + (['\n'] + rest);
    Cut(CsvTitle, '\n', rest);
  }

  /** The header holds one line break. */
  lemma HeaderBreaks()
    ensures multiset(CsvHeader)['\n'] == 1
  {
    TitleOneLine();
    EndsWithBreak(CsvTitle);
  }

  /** A text without a line break, then one: one line break in all. */
  lemma EndsWithBreak(t: string)
    requires '\n' !in t
    ensures multiset(t + "\n")['\n'] == 1
  {
    assert multiset(t + "\n") == multiset(t) + multiset{'\n'};
  }

  /** A record's fields between the separators, as its line writes them. */
  function Record(s: Student): string {
    s.roll + ([','] + (s.firstName + ([','] + s.lastName)))
  }

  /** A record without line breaks is read back from its own line, and the rows after it from theirs. */
  lemma FirstRow(s: Student, rest: string)
    requires '\n' !in s.roll && '\n' !in s.firstName && '\n' !in s.lastName
    ensures ParseRows(CsvLine(s) + rest) == [ParseLine(Record(s))] + ParseRows(rest)
  {
    LineGrouped(s, rest);
    assert '\n' !in Record(s);
    Cut(Record(s), '\n', rest);
  }

  /** A plain record's line reads back as the record. */
  lemma ParseLineOf(s: Student)
    requires Plain(s)
    ensures ParseLine(Record(s)) == s
  {
    Cut(s.roll, ',', s.firstName + ([','] + s.lastName));
    Cut(s.firstName, ',', s.lastName);
  }

  /** The lines of plain records read back as those records. */
  lemma {:induction false} ParseRowsOf(file: seq<Student>)
    requires forall k :: 0 <= k < |file| ==> Plain(file[k])
    ensures ParseRows(CsvRows(file)) == file
    decreases |file|
  {
    if |file| > 0 {
      var s := file[0];
      assert Plain(s);
      FirstRow(s, CsvRows(file[1..]));
      ParseLineOf(s);
      ParseRowsOf(file[1..]);
    }
  }

  /** Exporting plain records and reading the export back gives the records, in order. */
  lemma CsvRoundTrip(file: seq<Student>)
    requires forall k :: 0 <= k < |file| ==> Plain(file[k])
    ensures ParseCsv(CsvText(file)) == file
  {
    HeaderCut(CsvRows(file));
    ParseRowsOf(file);
  }

  /** A comma in the first name splits it: what follows the comma is read as part of the last name. */
  lemma ParseLineComma(s: Student, a: string, b: string)
    requires s.firstName == a + ([','] + b) && ',' !in a && ',' !in s.roll
    ensures ParseLine(Record(s)) == Student(a, b + ([','] + s.lastName), s.roll)
  {
    var names := s.firstName + ([','] + s.lastName);
    Cut(s.roll, ',', names);
    assert names == a + ([','] + (b + ([','] + s.lastName)));
    Cut(a, ',', b + ([','] + s.lastName));
  }

  /**
   * There is no quoting: a comma in a first name ends the field there, and the rest of
   * the first name moves into the last name ("Ann,Marie" "Lee" reads back as "Ann"
   * "Marie,Lee").
   */
  lemma CommaInFirstName(s: Student, a: string, b: string)
    requires s.firstName == a + ([','] + b) && ',' !in a && ',' !in s.roll
    requires '\n' !in s.roll && '\n' !in s.firstName && '\n' !in s.lastName
    ensures ParseCsv(CsvText([s])) == [Student(a, b + ([','] + s.lastName), s.roll)]
  {
    HeaderCut(CsvRows([s]));
    assert CsvRows([s]) == CsvLine(s) + "" by {
      assert [s][1..] == [];
    }
    FirstRow(s, "");
    ParseLineComma(s, a, b);
  }

  // ---------------------------------------------------------------------------
  // The program's state: the global array and count, and the record file.

  class Registry {
    var students: array<Student>
    var count: int
    /** Whether `students.dat` exists; `file` is its content, empty when it does not. */
    var onDisk: bool
    var file: seq<Student>

    ghost predicate Valid()
      reads this
    {
      students.Length == MaxStudents && 0 <= count <= students.Length && (!onDisk ==> file == [])
    }

    /** The records added in this run: the first `count` slots of the global array. */
    function InMemory(): seq<Student>
      reads this, students
      requires Valid()
    {
      students[..count]
    }

    /** The state at start-up: nothing in memory, and the record file as it is on disk, if there is one. */
    constructor (saved: Option<seq<Student>>)
      ensures Valid() && fresh(students) && InMemory() == []
      ensures onDisk == saved.Some? && file == (if saved.Some? then saved.value else [])
    {
      students := new Student[MaxStudents](_ => Student("", "", ""));
      count := 0;
      onDisk := saved.Some?;
      file := if saved.Some? then saved.value else [];
    }

    /**
     * `addStudent` with the record the user typed and whether the file opens for
     * appending. A missing file has no duplicate in it, and appending creates it.
     */
    method AddStudent(s: Student, canAppend: bool) returns (outcome: AddOutcome)
      requires Valid()
      modifies this`count, this`onDisk, this`file, students
      ensures Valid()
      ensures (outcome, Records(InMemory(), file)) == Add(s, old(Records(InMemory(), file)), canAppend)
      ensures onDisk == (old(onDisk) || outcome == Added)
    {
      var ok := IsValidRoll(s.roll);
      if !ok {
        return InvalidRoll;
      }
      var duplicate := RollInFile(file, s.roll);
      if duplicate {
        return Duplicate;
      }
      if count >= MaxStudents {
        return Full;
      }
      students[count] := s;
      count := count + 1;
      assert students[..count] == old(students[..count]) + [s];
      if !canAppend {
        return FileError;
      }
      file := file + [s];
      onDisk := true;
      return Added;
    }

    /**
     * `deleteStudent`: copy every record with another roll number to the new file, and
     * report whether one was skipped. The in-memory list is left as it is, and a missing
     * record file stops it before anything is read.
     */
    method DeleteStudent(roll: string) returns (found: bool)
      requires Valid()
      modifies this`file
      ensures Valid() && InMemory() == old(InMemory())
      ensures file == WithoutRoll(old(file), roll)
      ensures found <==> HasRoll(old(file), roll)
    {
      if !onDisk {
        return false;
      }
      var records := file;
      var kept: seq<Student> := [];
      found := false;
      for i := 0 to |records|
        invariant kept == WithoutRoll(records[..i], roll)
        invariant found <==> HasRoll(records[..i], roll)
      {
        assert records[..i + 1][..i] == records[..i];
        if records[i].roll == roll {
          found := true;
        } else {
          kept := kept + [records[i]];
        }
        assert found <==> HasRoll(records[..i + 1], roll) by {
          if HasRoll(records[..i], roll) {
            var k :| 0 <= k < i && records[..i][k].roll == roll;
            assert records[..i + 1][k] == records[..i][k];
          }
          if HasRoll(records[..i + 1], roll) && records[i].roll != roll {
            var k :| 0 <= k < i + 1 && records[..i + 1][k].roll == roll;
            assert records[..i][k] == records[..i + 1][k];
          }
        }
      }
      assert records[..|records|] == records;
      file := kept;
    }

    /** The roll-number search of one attempt: read records until one has the roll number. */
    method SearchRoll(roll: string) returns (r: Option<Student>)
      ensures r == FirstWithRoll(file, roll)
    {
      var i := 0;
      while i < |file|
        invariant 0 <= i <= |file|
        invariant FirstWithRoll(file[i..], roll) == FirstWithRoll(file, roll)
      {
        assert file[i..][1..] == file[i + 1..];
        if file[i].roll == roll {
          return Some(file[i]);
        }
        i := i + 1;
      }
      return None;
    }

    /** The last-name search of one attempt: read every record and report those that match. */
    method SearchLastName(name: string) returns (matches: seq<Student>)
      ensures matches == WithLastName(file, name)
    {
      matches := [];
      for i := 0 to |file|
        invariant matches == WithLastName(file[..i], name)
      {
        assert file[..i + 1][..i] == file[..i];
        if file[i].lastName == name {
          matches := matches + [file[i]];
        }
      }
      assert file[..|file|] == file;
    }

    /**
     * `searchStudent`: up to three attempts, each with the next of the user's `queries`.
     * A missing record file ends it before the first query is read.
     */
    method SearchStudent(choice: int, queries: seq<string>) returns (reported: seq<Student>, used: nat)
      requires |queries| >= 3
      ensures (reported, used) == if onDisk then Search(choice, file, queries) else ([], 0)
    {
      if choice != 1 && choice != 2 {
        return [], 0;
      }
      if !onDisk {
        return [], 0;
      }
      reported := [];
      used := 0;
      var found := false;
      while used < 3 && !found
        invariant used <= 3
        invariant found ==> (reported, used) == Attempts(choice, file, queries, 0)
        invariant !found ==> reported == [] && Attempts(choice, file, queries, used) == Attempts(choice, file, queries, 0)
        decreases 3 - used, if found then 0 else 1
      {
        var m: seq<Student>;
        if choice == 1 {
          var r := SearchRoll(queries[used]);
          m := if r.Some? then [r.value] else [];
        } else {
          m := SearchLastName(queries[used]);
        }
        assert m == Matches(choice, file, queries[used]);
        used := used + 1;
        if |m| > 0 {
          found := true;
          reported := m;
        }
      }
    }

    /**
     * `exportToCSV`, with `canWrite` whether `students_export.csv` opens for writing. The
     * result is what that file then holds: None when it could not be opened and keeps
     * what it held; the empty text when it was opened but the record file is missing;
     * otherwise the header, then one line per record read from the file.
     */
    method ExportToCsv(canWrite: bool) returns (csv: Option<string>)
      ensures !canWrite ==> csv == None
      ensures canWrite && !onDisk ==> csv == Some("")
      ensures canWrite && onDisk ==> csv == Some(CsvText(file))
    {
      if !canWrite {
        return None;
      }
      if !onDisk {
        return Some("");
      }
      var text := CsvHeader;
      for i := 0 to |file|
        invariant text == CsvHeader + CsvRows(file[..i])
      {
        CsvRowsAppend(file[..i], file[i]);
        assert file[..i + 1] == file[..i] + [file[i]];
        text := text + CsvLine(file[i]);
      }
      assert file[..|file|] == file;
      return Some(text);
    }
  }
}
