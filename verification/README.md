# Three small C console programs, modelled in Dafny

This project models the logic of three C programs. Their console, file and clock I/O
is taken out.

- **Terminal calculator** (`Calculator/code/Calculator.c`). An expression goes through
  three stages:
  - a tokenizer;
  - Dijkstra's shunting-yard conversion to postfix;
  - a postfix evaluator with a value stack.

  The stages report failure through one shared error flag. The flag is sticky: it is
  raised and never lowered. Numbers are `real`. The number conversion of `sscanf`'s `%lf` (field `scanReal`), `sqrt`, `log`,
  `log10`, `exp`, `sin`, `cos`, `tan` and `pow` are fields of a `Libm` value passed in as
  a parameter, so only the domain checks around them are modelled. The integer cast
  `(int)` and C's truncating `%` are written out in `CLib`.
- **To-do list** (`ToDoList_project/code/todolist.c`). A class `TaskList` holds the
  fixed array of 100 tasks and the count of tasks. Add, complete, delete (a left-shift
  loop), edit and the filtered view are methods over that array. Each method is proved
  against a function on the sequence of stored tasks. The user's menu choices and input
  lines are parameters. `parseDate`'s `sscanf("%d-%d-%d")` is modelled as a scanner on
  strings.
- **Student records** (`Student_record_sytem/code/student_records.c`). The record file
  `students.dat` is a sequence of `Student` records. A class `Registry` holds the
  in-memory array, its count and that file. The model covers:
  - roll-number validation;
  - the acceptance rules of adding a student;
  - deletion by roll number;
  - the search rules, with up to three attempts;
  - the CSV export.

  It also gives a reader for the export and proves the round trip for names without
  commas or newlines. Whether `students.dat` exists is part of the state, because a
  missing file changes what search and export do.

The calculator's pipeline is also related to what an expression means. `CalcExpr` gives
an expression tree with its fully parenthesized tokens, its postfix form and its value
computed on the tree. It proves that the conversion produces that postfix form and the
evaluator produces that value.

Modules: `Wrappers` (Option), `CLib`, `CalcLexer`, `CalcPostfix`, `CalcPostfixProps`,
`CalcArith`, `CalcEval`, `Calculator`, `CalcExpr`, `TodoList`, `StudentRecords`. There is one file per
module.

## Model

| member | source | states |
|---|---|---|
| CLib.TruncToInt | Calculator/code/Calculator.c:204 | The `(int)` cast truncates toward zero. For x ≥ 0 the result is the largest integer not above x; for x < 0 it is the smallest integer not below x. |
| CLib.CQuot | Calculator/code/Calculator.c:204 | C's `/` on `int` truncates toward zero: the quotient's magnitude is the quotient of the magnitudes, and a non-zero quotient is positive exactly when the operands have the same sign. On non-negative operands it is the mathematical quotient. |
| CLib.CRem | Calculator/code/Calculator.c:204 | C's `%`: the dividend equals the truncated quotient times the divisor plus the remainder. The remainder is smaller than the divisor in absolute value and takes the dividend's sign. |
| CLib.CRemUnique | Calculator/code/Calculator.c:204 | These properties determine the quotient and remainder uniquely, so `CRem` is C's remainder and no other. |
| CLib.CRemOfNonNegative | Calculator/code/Calculator.c:204 | On a non-negative dividend and a positive divisor, C's remainder agrees with the mathematical one. |
| CLib.CRemNegativeDividend | Calculator/code/Calculator.c:204 | On a negative dividend they differ: C gives -7 % 2 = -1, whereas the Euclidean remainder is 1. |
| CalcLexer.NumberEnd | Calculator/code/Calculator.c:60-63 | A number token takes the maximal run of digits and dots: everything inside the run is a digit or a dot, and the character after it is not. |
| CalcLexer.WordEnd | Calculator/code/Calculator.c:65-69 | A name takes the maximal run of letters. |
| CalcLexer.WordToken | Calculator/code/Calculator.c:71-79 | A letter run becomes a NUMBER exactly when it is `Ans`, case-sensitively, and its value is then the last result. Any other run becomes a FUNCTION token carrying the run, with no name check. |
| CalcLexer.Tokenize | Calculator/code/Calculator.c:53-95 | The scanning loop over the expression returns exactly the tokens, or the failure, that the recursive definition `Tokens` gives. |
| CalcLexer.LexFailsIffStray | Calculator/code/Calculator.c:57-91 | From any token boundary, tokenizing fails exactly when a later character is none of these: white space, a digit, a dot followed by a digit, a letter, a parenthesis or one of `+-*/%^`. |
| CalcLexer.TokensFailIffStray | Calculator/code/Calculator.c:57-91 | `tokenize` on a whole expression returns -1 exactly when the expression holds such a stray character. |
| CalcLexer.LexKeepsMarks | Calculator/code/Calculator.c:80-88 | Every operator character becomes exactly one OPERATOR token carrying that character, and every parenthesis becomes one paren token. They appear in the order of the text, and nothing else produces them. |
| CalcLexer.LexFunctionNames | Calculator/code/Calculator.c:65-79 | Every FUNCTION token carries a non-empty run of letters other than `Ans`. |
| CalcLexer.SkipBlanks | Calculator/code/Calculator.c:58 | A run of white space produces no token: tokenizing from its start is tokenizing from its end, and blanks up to the end give no tokens. |
| CalcLexer.LexShift | Calculator/code/Calculator.c:57-91 | The scan only looks forward: what it yields from a position does not depend on the text before that position. |
| CalcLexer.LeadingBlanks | Calculator/code/Calculator.c:58 | White space in front of an expression changes none of its tokens. |
| CalcLexer.MinusThreeTokens | Calculator/code/Calculator.c:57-91 | There is no unary minus: `-3` is an OPERATOR `-` followed by a NUMBER. |
| CalcLexer.AnsTokens | Calculator/code/Calculator.c:65-79 | `Ans+Answer` gives the last result, `+` and a FUNCTION named `Answer`, because only the exact run `Ans` is the last result. |
| CalcPostfix.Precedence | Calculator/code/Calculator.c:187-194 | The precedence is 1 exactly for `+` and `-`, 2 exactly for `*`, `/` and `%`, 3 exactly for `^`, and 0 exactly for any other character. |
| CalcPostfix.IsRightAssociative | Calculator/code/Calculator.c:195-197 | A character is right-associative exactly when it is the operator of the highest precedence, which is `^`. |
| CalcPostfix.PopsBefore | Calculator/code/Calculator.c:117-123 | Only a FUNCTION or an OPERATOR pops, and a FUNCTION always pops. The same operator pops before itself unless it is `^`. `^` pops before any other operator. `+` and `-` never pop before `*`, `/`, `%` or `^`. `*`, `/` and `%` always pop before `+` and `-`. Two different operators of equal precedence pop (`-` before `+`, `/` or `%` before `*`), so they group left. `*`, `/` and `%` never pop before `^`. |
| CalcPostfix.ToPostfix | Calculator/code/Calculator.c:106-147 | The conversion loop with its output and operator stack returns exactly what the shunting-yard definition `Shunt` gives, including failure. |
| CalcPostfixProps.PopOperatorsPops | Calculator/code/Calculator.c:116-126 | An incoming operator pops exactly the run of stack tops that pop before it, and these reach the output top first. Those are a FUNCTION, a tighter operator, or an equally tight one unless the incoming operator is the right-associative `^`. The remaining top, if any, does not pop before it. |
| CalcPostfixProps.PopToParenPops | Calculator/code/Calculator.c:129-132 | A `)` pops exactly the stack tops above the nearest `(`, top first. |
| CalcPostfixProps.CloseResult | Calculator/code/Calculator.c:129-138 | A `)` fails exactly when the stack holds no `(`. Otherwise the tokens above the topmost `(` are emitted, the `(` is discarded, and a FUNCTION lying right under it is emitted next. |
| CalcPostfixProps.DrainProps | Calculator/code/Calculator.c:141-144 | The end-of-input drain fails exactly when a `(` is left on the stack. Otherwise it emits the whole stack with no parenthesis and keeps the numbers in order. |
| CalcPostfixProps.CloseProps | Calculator/code/Calculator.c:129-138 | A `)` keeps the yard's invariant: no parenthesis in the output, the same tokens in play, one `(` fewer and the numbers in order. It fails exactly when no `(` is open. |
| CalcPostfixProps.StepProps | Calculator/code/Calculator.c:110-139 | One input token fails only as a `)` with no open `(`, and otherwise keeps the invariant. |
| CalcPostfixProps.RunFails | Calculator/code/Calculator.c:110-146 | From a well-formed state, the conversion fails exactly when the rest of the input does not balance its parentheses against the ones already open. |
| CalcPostfixProps.RunOutput | Calculator/code/Calculator.c:110-146 | On success the output holds no parenthesis. It is a permutation of the tokens in play plus the input's non-paren tokens, and the numbers stay in order. |
| CalcPostfixProps.ShuntFailsIffUnbalanced | Calculator/code/Calculator.c:129-144 | `to_postfix` returns -1 exactly when the parentheses do not balance: a `)` with no `(` open, or a `(` left open at the end. |
| CalcPostfixProps.ShuntOutput | Calculator/code/Calculator.c:112-146 | A successful conversion contains no parenthesis and is a permutation of the input without its parentheses. Its length is the input length minus the number of parentheses, and NUMBER tokens keep their order. |
| CalcPostfixProps.PowerGroupsRight | Calculator/code/Calculator.c:116-126 | `a^b^c` converts to `a b c ^ ^`, because `^` is right-associative. |
| CalcPostfixProps.MinusGroupsLeft | Calculator/code/Calculator.c:116-126 | `a-b-c` converts to `a b - c -`, because `-` is left-associative. |
| CalcPostfixProps.ProductBeforeSum | Calculator/code/Calculator.c:116-126 | `a+b*c` converts to `a b c * +`, because `*` binds tighter than `+`. |
| CalcArith.DegreesToRadians | Calculator/code/Calculator.c:228-230 | The conversion scales degrees by pi/180. |
| CalcArith.ApplyOperator | Calculator/code/Calculator.c:198-208 | An operator raises the error, with value 0, exactly in three cases: the character is not an operator, it is `/` with a zero divisor, or it is `%` whose divisor casts to int 0. A `%` result is C's truncated remainder: smaller than the divisor and with the dividend's sign. |
| CalcArith.OperatorInverses | Calculator/code/Calculator.c:200-203 | `+` and `-` undo each other, and so do `*` and `/` for a non-zero divisor. |
| CalcArith.RemainderRebuilds | Calculator/code/Calculator.c:204 | `%` yields an integer that, added to the truncated quotient times the divisor, rebuilds the truncated dividend. |
| CalcArith.RemainderOfNegative | Calculator/code/Calculator.c:204 | -7.5 % 2 is -1: the operands are truncated, and the remainder keeps the dividend's sign. |
| CalcArith.Fact | Calculator/code/Calculator.c:222-227 | The factorial product is at least 1 for n ≥ 0. |
| CalcArith.FactGrows | Calculator/code/Calculator.c:222-227 | For 1 ≤ m ≤ n, m! ≤ n!, and m! is (m−1)! times m. |
| CalcArith.Factorial | Calculator/code/Calculator.c:222-227 | The accumulation loop computes the factorial product 2·…·n, which is 1 for n = 0 and n = 1. |
| CalcArith.ApplyFunction | Calculator/code/Calculator.c:209-221 | A function raises the error, with value 0, in these cases: the name is unknown, `sqrt` of a negative, `ln`/`log` of a non-positive, or `fact` of a negative or non-integral value. `abs` is non-negative, and `fact` of an integral value is that factorial. |
| CalcArith.NamesAreCaseSensitive | Calculator/code/Calculator.c:209-219 | Function names are matched case-sensitively: `Sqrt` is an unknown name. |
| CalcArith.SmallFactorials | Calculator/code/Calculator.c:215 | `fact` gives 0! = 1! = 1 and 5! = 120, and raises the error on 2.5. |
| CalcEval.Exec | Calculator/code/Calculator.c:150-172 | An error flag raised before evaluation stays raised. |
| CalcEval.EvaluatePostfix | Calculator/code/Calculator.c:150-172 | The evaluation loop, with its value stack and shared flag, returns exactly what the definition `EvalPostfix` gives. |
| CalcEval.IllShapedFails | Calculator/code/Calculator.c:154-171 | An input where an operator finds fewer than two values or a function finds none, or where the final stack does not hold exactly one value, always ends in the error with value 0, whatever the numbers. |
| CalcEval.WellShapedHeight | Calculator/code/Calculator.c:154-171 | A number raises the stack by 1, an operator lowers it by 1 and a function leaves it alone. On a well-shaped input these changes add up to leave exactly one value. |
| CalcEval.TotalKeepsFlag | Calculator/code/Calculator.c:158-167 | A well-shaped input that uses only operators and functions that never fail leaves the flag as it was. |
| CalcEval.OperandOrder | Calculator/code/Calculator.c:158-162 | The value popped first is the right operand: `a b -` is a − b and `a b /` is a / b. |
| CalcEval.DivisionByZeroIsSticky | Calculator/code/Calculator.c:158-166 | A failing operator does not stop the loop: `1 0 / 2 +` ends with the value 2 and the error flag raised. |
| Calculator.EvaluateExpression | Calculator/code/Calculator.c:175-184 | The three stages run in turn, and any failing stage ends the run with value 0 and the error. The result is exactly what `Evaluate` gives. |
| Calculator.FlagIsSticky | Calculator/code/Calculator.c:175-184 | Once the caller's flag is raised, the whole pipeline reports an error. |
| Calculator.StageFailures | Calculator/code/Calculator.c:177-183 | Each of these is an error with value 0: a stray character, unbalanced parentheses, or a postfix form whose stack heights do not work out. |
| Calculator.SuccessShape | Calculator/code/Calculator.c:175-184 | A result without the error comes from balanced parentheses and a postfix form with exactly one value left at the end. |
| Calculator.NegativeLiteralFails | Calculator/code/Calculator.c:175-184 | `-3` is an error with value 0, because the binary `-` finds a single value on the stack. |
| CalcExpr.ShuntInfix | Calculator/code/Calculator.c:110-139 | A parenthesized expression is converted as one unit: it appends the expression's postfix form to the output and leaves the operator stack as it was, unless a FUNCTION is on top of that stack. |
| CalcExpr.ShuntOfInfix | Calculator/code/Calculator.c:106-147 | `to_postfix` turns the tokens of a fully parenthesized expression into its postfix form. |
| CalcExpr.ShuntOfBareBin | Calculator/code/Calculator.c:106-147 | The same holds when the outermost operation has no parentheses. |
| CalcExpr.ExecPost | Calculator/code/Calculator.c:154-168 | The evaluator runs an expression's postfix form as one unit: it pushes the value computed on the tree and raises the tree's error. |
| CalcExpr.EvalOfPost | Calculator/code/Calculator.c:150-172 | `eval_postfix` of an expression's postfix form is the expression's value, and the flag is raised exactly when it was already raised or an operation on the way failed. |
| CalcExpr.InfixKeepsMeaning | Calculator/code/Calculator.c:175-184 | Text whose tokens form a fully parenthesized expression evaluates to that expression's value and error. |
| CalcExpr.BareBinKeepsMeaning | Calculator/code/Calculator.c:175-184 | The same holds when the outermost operation has no parentheses. |
| TodoList.UpToNewline | ToDoList_project/code/todolist.c:176 | Cutting at the first newline keeps a prefix that holds no newline and stops exactly at the first one. |
| TodoList.UpToNewlineIdempotent | ToDoList_project/code/todolist.c:176 | Cutting twice is cutting once, and a line without a newline is kept whole. |
| TodoList.TaskList.constructor | ToDoList_project/code/todolist.c:84-85 | A new list is empty, with a fresh array of 100 tasks. |
| TodoList.NewTask | ToDoList_project/code/todolist.c:160-205 | A new task is not completed and keeps the priority entered. Its description, deadline and category are exactly the lines read, cut before their first newline (`UpToNewline`). A line without a newline is kept whole. |
| TodoList.TaskList.AddTask | ToDoList_project/code/todolist.c:160-205 | With 100 tasks nothing changes. Otherwise the new, uncompleted task is stored at the old count, the count grows by 1 and every other slot is unchanged. |
| TodoList.AddKeepsEarlier | ToDoList_project/code/todolist.c:162-200 | Adding never exceeds 100 tasks and keeps the earlier tasks as a prefix. Below capacity the new task is last. |
| TodoList.TaskList.CompleteTask | ToDoList_project/code/todolist.c:312-336 | A number outside 1..count changes nothing. Otherwise only that task's flag changes, to completed. |
| TodoList.CompleteTouchesOneFlag | ToDoList_project/code/todolist.c:322-330 | Completing keeps the length and every other task. The chosen task differs only in its flag, and completing it again changes nothing. |
| TodoList.TaskList.DeleteTask | ToDoList_project/code/todolist.c:340-369 | A number outside 1..count changes nothing. Otherwise the shift loop leaves the stored tasks equal to the old ones with that task removed, and the count drops by 1. |
| TodoList.ShiftedLeft | ToDoList_project/code/todolist.c:358-360 | After the left shift, the first count−1 slots are the old tasks with the chosen one removed. |
| TodoList.RemoveAt | ToDoList_project/code/todolist.c:358-363 | Removing index k keeps the entries before k, and each later index i receives old entry i+1. |
| TodoList.DeleteRemovesOne | ToDoList_project/code/todolist.c:358-363 | Deleting a valid number removes exactly that one task from the multiset of tasks. |
| TodoList.DeleteUndoesAdd | ToDoList_project/code/todolist.c:340-369 | Deleting a task just added restores the list. |
| TodoList.TaskList.EditTask | ToDoList_project/code/todolist.c:439-507 | An empty list or a number out of range changes nothing. Otherwise only the chosen task is replaced by its edited form. |
| TodoList.EditTouchesOneTask | ToDoList_project/code/todolist.c:441-465 | Editing keeps the length and every task but the chosen one. |
| TodoList.EditProps | ToDoList_project/code/todolist.c:476-502 | Editing keeps the category and the completion flag. A new description or deadline holds no newline. Repeating the same edit changes nothing. |
| TodoList.Edited | ToDoList_project/code/todolist.c:476-502 | An edit keeps the category and the completion flag. The description is kept exactly when its line is the bare "\n" and otherwise becomes that line cut before its first newline (`UpToNewline`); the deadline follows the same rule with its own line. The priority is either kept or a value from 1 to 3. |
| TodoList.EditKeep | ToDoList_project/code/todolist.c:476-502 | Bare newlines and any priority outside 1..3 keep a task as it was. |
| TodoList.EditPriority | ToDoList_project/code/todolist.c:492-502 | A priority from 1 to 3 replaces the old one, whatever the lines say. Any other value keeps the old one. |
| TodoList.TaskList.ViewTasks | ToDoList_project/code/todolist.c:229-258 | The listing is exactly those tasks that the chosen filter shows, in stored order. |
| TodoList.FilterFor | ToDoList_project/code/todolist.c:230-242 | Choices 1-4 map to Work, Study, Personal and Other. Every other choice maps to ALL. |
| TodoList.SameIgnoringCase | ToDoList_project/code/todolist.c:257 | `strcasecmp` equality implies equal lengths, and equal strings always match. |
| TodoList.VisibleExactly | ToDoList_project/code/todolist.c:255-258 | A task is listed if and only if it is stored and the filter is ALL or equals its category ignoring case. The listing is never longer than the list. |
| TodoList.OtherChoicesShowAll | ToDoList_project/code/todolist.c:235-242 | Any choice outside 1-4 lists every task. |
| TodoList.CategoryMatching | ToDoList_project/code/todolist.c:257 | The category match ignores case but is not a prefix match: `WORK` is shown under Work and `Workshop` is not. |
| TodoList.ScanFields | ToDoList_project/code/todolist.c:511-512 | The scanner yields at most the three requested fields. |
| TodoList.ParseDate | ToDoList_project/code/todolist.c:510-518 | Hour, minute and second are always 0. |
| TodoList.ParseDateFields | ToDoList_project/code/todolist.c:510-518 | For digit strings y-m-d followed by anything that does not continue a number, the year is y − 1900, the month is m − 1 and the day is d. |
| TodoList.ParseDateRoundTrip | ToDoList_project/code/todolist.c:510-518 | Printing a year, month and day in decimal as `Y-M-D` and parsing the result gives back year − 1900, month − 1 and day. |
| TodoList.ParseDateExample | ToDoList_project/code/todolist.c:510-518 | `2025-06-30` gives year 125, month 5, day 30. |
| TodoList.ParseDateOfText | ToDoList_project/code/todolist.c:510-518 | A deadline with no number leaves every field at the callers' zero, giving year −1900 and month −1. |
| StudentRecords.IsValidRoll | Student_record_sytem/code/student_records.c:84-94 | The check succeeds exactly for seven characters `AM` followed by five digits. |
| StudentRecords.ValidRoll | Student_record_sytem/code/student_records.c:84-94 | A valid roll has seven characters, and none of them is a comma, a newline or a blank. |
| StudentRecords.RollExamples | Student_record_sytem/code/student_records.c:84-94 | `AM12345` is valid. A lower-case prefix, six or eight characters, or a letter among the digits is not. |
| StudentRecords.RollInFile | Student_record_sytem/code/student_records.c:118-129 | The duplicate scan finds the roll exactly when some stored record has it. |
| StudentRecords.Registry.constructor | Student_record_sytem/code/student_records.c:41-42 | The program starts with no students in memory. The record file is as found on disk; a missing file is empty and marked as missing. |
| StudentRecords.Add | Student_record_sytem/code/student_records.c:97-150 | Memory is either unchanged or gains the record at its end. The file gains the record at its end exactly when the outcome is Added, and is otherwise unchanged. Memory never grows past 100 records. |
| StudentRecords.Registry.AddStudent | Student_record_sytem/code/student_records.c:97-150 | The outcome and the new memory and file are exactly those of the acceptance rules `Add`. A missing file holds no duplicate, and a successful append creates it. |
| StudentRecords.AddRejectsCleanly | Student_record_sytem/code/student_records.c:111-137 | An invalid roll is rejected exactly when the roll fails the format. Invalid, duplicate and full all leave the memory and the file unchanged. |
| StudentRecords.AddAppends | Student_record_sytem/code/student_records.c:118-147 | The record reaches memory exactly when its roll is valid, the file does not hold it and memory is below 100 records. It is then appended at the end of memory. It reaches the end of the file (outcome Added) exactly when, in addition, the file opens for appending; otherwise the outcome is FileError and the file is unchanged. |
| StudentRecords.AddKeepsFileClean | Student_record_sytem/code/student_records.c:111-147 | Adding keeps the file's rolls valid and distinct. |
| StudentRecords.AddTwiceIsDuplicate | Student_record_sytem/code/student_records.c:118-129 | After a successful add, a second record with the same roll is rejected as a duplicate. |
| StudentRecords.WithoutRoll | Student_record_sytem/code/student_records.c:279-285 | Deletion never lengthens the file, and no kept record has the deleted roll. |
| StudentRecords.Registry.DeleteStudent | Student_record_sytem/code/student_records.c:263-297 | The file becomes the old file without the records of that roll. The answer is whether any was there, and memory is untouched. A missing file stays missing. |
| StudentRecords.DeleteKeepsOthers | Student_record_sytem/code/student_records.c:279-285 | A record survives deletion exactly when it was in the file with a different roll. |
| StudentRecords.DeleteSplits | Student_record_sytem/code/student_records.c:279-285 | Deletion works record by record and keeps the file order: deleting from a concatenation is the concatenation of the deletions. |
| StudentRecords.DeleteFound | Student_record_sytem/code/student_records.c:279-293 | Deletion never lengthens the file. It shortens the file exactly when the roll was present. |
| StudentRecords.DeleteAbsent | Student_record_sytem/code/student_records.c:279-285 | Deleting an absent roll leaves the file as it was. |
| StudentRecords.DeleteUndoesAdd | Student_record_sytem/code/student_records.c:140-147 | Deleting the roll just added restores the file. |
| StudentRecords.Registry.SearchRoll | Student_record_sytem/code/student_records.c:199-208 | The scan by roll stops at the first match, and its result is exactly `FirstWithRoll`. |
| StudentRecords.FirstWithRollIsFirst | Student_record_sytem/code/student_records.c:199-208 | The search by roll finds a record exactly when one has that roll. The one found is the first in file order. |
| StudentRecords.UniqueRollFound | Student_record_sytem/code/student_records.c:199-208 | With distinct rolls, searching a record's roll finds that record. |
| StudentRecords.Registry.SearchLastName | Student_record_sytem/code/student_records.c:231-242 | The scan by last name collects exactly `WithLastName`. |
| StudentRecords.WithLastNameExactly | Student_record_sytem/code/student_records.c:231-242 | The search by last name reports exactly the stored records with that last name. |
| StudentRecords.WithLastNameSplits | Student_record_sytem/code/student_records.c:231-242 | It reports them in file order. |
| StudentRecords.Registry.SearchStudent | Student_record_sytem/code/student_records.c:175-259 | The search with retries reports exactly what `Search` gives: what was reported and how many queries were read. A choice other than 1 or 2, or a missing record file, reads no query and reports nothing. |
| StudentRecords.AttemptsOutcome | Student_record_sytem/code/student_records.c:189-251 | At most three attempts are made, and every attempt before the last one found nothing. A non-empty report is the matches of the last attempt. An empty report means all three attempts found nothing. |
| StudentRecords.RollSearchReportsOne | Student_record_sytem/code/student_records.c:189-216 | A search by roll reports at most one record, a stored one carrying the roll asked in its attempt. |
| StudentRecords.Registry.ExportToCsv | Student_record_sytem/code/student_records.c:300-321 | If `students_export.csv` cannot be opened, it is not written. If the record file is missing, the export is left empty. Otherwise it holds exactly `CsvText` of the file. |
| StudentRecords.CsvRowsAppend | Student_record_sytem/code/student_records.c:313-315 | One line is written per record, in file order. |
| StudentRecords.CsvLineCount | Student_record_sytem/code/student_records.c:310-315 | For records whose fields hold no newline, the export has exactly record count + 1 line breaks. Commas do not matter. |
| StudentRecords.CsvRoundTrip | Student_record_sytem/code/student_records.c:310-315 | For records whose fields hold no comma or newline, reading the export back field by field gives the file's records in order. |
| StudentRecords.CommaInFirstName | Student_record_sytem/code/student_records.c:314 | Without quoting, a comma in a first name shifts the fields: `a,b` as a first name reads back as first name `a` and last name `b,last`. |

## Left out

- Console I/O is not modelled: menus, prompts, `printf`/`scanf`/`fgets`, colours (`setColor`, `SetConsoleTextAttribute`), `printHeader` and `system("cls")`. User choices and input lines are parameters of the methods.
- The calculator's `main` loop is not modelled: the `q`/`c` commands and storing the result as the next `Ans`. `Calculator.EvaluateExpression` takes the last result as a parameter.
- Floating point is modelled as exact `real` arithmetic. The values of the `%lf` conversion of `sscanf` (field `scanReal`), `sqrt`, `log`, `log10`, `exp`, `sin`, `cos`, `tan` and `pow` are opaque fields of `CLib.Libm`, so only the domain checks around them are modelled. NaN, infinities, signed zero, rounding and the `%.6lf` output format are not modelled.
- CLib.TruncToInt: a value outside the range of a C `int`, where the cast is undefined, is truncated like any other.
- Fixed buffer sizes are not modelled: `MAX_TOKENS`, `MAX_STACK`, the 10-character `func` buffer, the `fgets` and `scanf("%s")` buffer sizes, and the char arrays of `Task` and `Student`. Sequences are unbounded, so the overflows those buffers allow are not reproduced.
- CalcLexer.Tokenize: requires an expression without NUL characters. The C string ends at the first NUL, so such input cannot reach the function.
- C `int` overflow in `factorial`'s loop counter and in `sscanf("%d")` is not modelled.
- The `qsort` by `compareDates` in `viewTasks` is not modelled. It reorders the array of tasks in place before the listing, and that order is later saved.
- TodoList.TaskList.ViewTasks: lists tasks in stored order, because the sort calls `time`, `mktime` and `difftime` and its comparator truncates a `double`. The days-remaining and overdue display is likewise not modelled.
- The to-do list's priority and category colour labels (`todolist.c` lines 284-305) are not modelled. They are display only.
- `loadTasks` and `saveTasks` are not modelled. They are binary file I/O.
- A task's `completed` field is a `bool`. The program only writes 0 and 1 to it.
- TodoList.ParseDate: `sscanf`'s `%d` also accepts a `+` sign. The model takes an optional `-` or `+` before each field, but it does not model `int` overflow on long digit runs.
- The record file's binary layout is not modelled: `fread`/`fwrite` of the struct, and `remove`/`rename`. The file is its sequence of records, plus a flag that says whether it exists. An existing file that cannot be opened for reading is not distinguished from a readable one.
- StudentRecords.Registry.SearchStudent: requires at least three query lines, one for each possible attempt. Lines the program never reads are ignored.
- StudentRecords.Registry.DeleteStudent: assumes `temp.dat` can be opened for writing. When it cannot, the program gives up and the file is unchanged. The empty `temp.dat` left behind by a missing record file is not modelled either.
- `displayStudents` is not modelled. It only prints the records of the file.
- `scanf("%s")` reads names and rolls without white space. The model accepts any strings, which is a superset.
