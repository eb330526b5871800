/**
  `process_data_file` of mpi_enade.c and the loop of `main` that runs it over
  the seven answer files: every rank reads every file, handles the data lines
  whose 0-based number is congruent to its rank modulo the number of ranks,
  and counts a handled line when its course is an ADS course.
 */
module MpiTally {
  import opened Wrappers
  import opened MpiResults

  /**
    A line of an answer file as `sscanf(line, "%d;%d;\"%1s\"", &year, &course_code, answer_str)`
    leaves it: a value the format did not reach keeps its initial 0, or '\0' for the answer.
   */
  datatype AnswerLine = AnswerLine(year: int, courseCode: int, answer: char)

  /** An answer file as main passes it: its name, and its lines, or `None` when `fopen` fails. */
  datatype InputFile = InputFile(name: DataFile, content: Option<seq<AnswerLine>>)

  /** The lines the loop sees: the first `fgets` consumes the header. */
  function DataLines(file: seq<AnswerLine>): seq<AnswerLine> {
    if |file| == 0 then [] else file[1..]
  }

  /** The data lines rank `rank` handles: those whose number `k` has `k % worldSize == rank`, in file order. */
  function Owned(lines: seq<AnswerLine>, rank: nat, worldSize: nat): seq<AnswerLine>
    requires worldSize > 0
  {
    if lines == [] then []
    else
      var n := |lines| - 1;
      Owned(lines[..n], rank, worldSize) + (if n % worldSize == rank then [lines[n]] else [])
  }

  /** A handled line is counted into its file's counters exactly when its course is an ADS course. */
  function TallyLine(r: Results, f: DataFile, line: AnswerLine, courses: seq<int>): Results {
    if line.courseCode in courses then Count(r, f, line.answer) else r
  }

  /** The accumulator after handling `lines`, in order, starting from `r`. */
  function TallyLines(r: Results, f: DataFile, lines: seq<AnswerLine>, courses: seq<int>): Results {
    if lines == [] then r
    else TallyLine(TallyLines(r, f, lines[..|lines| - 1], courses), f, lines[|lines| - 1], courses)
  }

  /** One call of `process_data_file` by rank `rank`: a file that cannot be opened changes nothing. */
  function FileTally(r: Results, file: InputFile, rank: nat, worldSize: nat, courses: seq<int>): Results
    requires worldSize > 0
  {
    match file.content
    case None => r
    case Some(lines) => TallyLines(r, file.name, Owned(DataLines(lines), rank, worldSize), courses)
  }

  /** `local_results` of rank `rank` after main's loop over `files`, starting from `{0}`. */
  function RankTally(files: seq<InputFile>, rank: nat, worldSize: nat, courses: seq<int>): Results
    requires worldSize > 0
  {
    if files == [] then Zero()
    else FileTally(RankTally(files[..|files| - 1], rank, worldSize, courses), files[|files| - 1], rank, worldSize, courses)
  }

  /** `is_ads_course(course_code, ads_courses, num_ads_courses)` over the broadcast copy of the list. */
  method IsAdsCourse(code: int, courses: seq<int>) returns (found: bool)
    ensures found <==> code in courses
  {
    var i := 0;
    while i < |courses|
      invariant 0 <= i <= |courses|
      invariant code !in courses[..i]
    {
      if courses[i] == code {
        return true;
      }
      i := i + 1;
    }
    return false;
  }

  /**
    `process_data_file(filename, rank, world_size, ads_courses, num_ads_courses, &local_results)`:
    `acc` is `*local_results` on entry, `r` its value on return.
   */
  method ProcessDataFile(file: InputFile, rank: nat, worldSize: nat, courses: seq<int>, acc: Results)
    returns (r: Results)
    requires rank < worldSize
    ensures r == FileTally(acc, file, rank, worldSize, courses)
  {
    r := acc;
    if file.content.None? {
      return;
    }
    var lines := DataLines(file.content.value);
    var lineNumber := 0;
    ghost var handled: seq<AnswerLine> := [];
    while lineNumber < |lines|
      invariant 0 <= lineNumber <= |lines|
      invariant handled == Owned(lines[..lineNumber], rank, worldSize)
      invariant r == TallyLines(acc, file.name, handled, courses)
    {
      OwnedSnoc(lines, lineNumber, rank, worldSize);
      if lineNumber % worldSize == rank {
        var line := lines[lineNumber];
        TallyLinesSnoc(acc, file.name, handled, line, courses);
        var member := IsAdsCourse(line.courseCode, courses);
        if member {
          r := Count(r, file.name, line.answer);
        }
        handled := handled + [line];
      }
      lineNumber := lineNumber + 1;
    }
    assert lines[..lineNumber] == lines;
  }

  /** Rank `rank`'s pass of main over the answer files, from `Results local_results = {0}`. */
  method RunRank(files: seq<InputFile>, rank: nat, worldSize: nat, courses: seq<int>) returns (r: Results)
    requires rank < worldSize
    ensures r == RankTally(files, rank, worldSize, courses)
  {
    r := Zero();
    for i := 0 to |files|
      invariant r == RankTally(files[..i], rank, worldSize, courses)
    {
      assert files[..i + 1][..i] == files[..i];
      r := ProcessDataFile(files[i], rank, worldSize, courses, r);
    }
    assert files[..|files|] == files;
  }

  /** Line number `k` goes to rank `k % worldSize` and to no other. */
  lemma OwnedSnoc(lines: seq<AnswerLine>, k: nat, rank: nat, worldSize: nat)
    requires k < |lines| && worldSize > 0
    ensures Owned(lines[..k + 1], rank, worldSize) ==
      Owned(lines[..k], rank, worldSize) + (if k % worldSize == rank then [lines[k]] else [])
  {
    assert lines[..k + 1][..k] == lines[..k];
  }

  /** Handling one more line is one more `TallyLine`. */
  lemma TallyLinesSnoc(r: Results, f: DataFile, lines: seq<AnswerLine>, line: AnswerLine, courses: seq<int>)
    ensures TallyLines(r, f, lines + [line], courses) == TallyLine(TallyLines(r, f, lines, courses), f, line, courses)
  {
    assert (lines + [line])[..|lines|] == lines;
  }

  /** The number of lines whose course is an ADS course. */
  function MemberCount(lines: seq<AnswerLine>, courses: seq<int>): nat {
    if lines == [] then 0
    else MemberCount(lines[..|lines| - 1], courses) + (if lines[|lines| - 1].courseCode in courses then 1 else 0)
  }

  /** The number of ADS lines whose answer passes the arq21 affirmative-action test. */
  function AffirmativeCount(lines: seq<AnswerLine>, courses: seq<int>): nat {
    if lines == [] then 0
    else
      var last := lines[|lines| - 1];
      AffirmativeCount(lines[..|lines| - 1], courses)
        + (if last.courseCode in courses && IsAffirmativeAnswer(last.answer) then 1 else 0)
  }

  /** The number of ADS lines whose answer character is `c`. */
  function AnswerCount(lines: seq<AnswerLine>, courses: seq<int>, c: char): nat {
    if lines == [] then 0
    else
      var last := lines[|lines| - 1];
      AnswerCount(lines[..|lines| - 1], courses, c)
        + (if last.courseCode in courses && last.answer == c then 1 else 0)
  }

  /** Lines of courses outside the list change no counter. */
  lemma {:induction false} NonMemberLinesChangeNothing(r: Results, f: DataFile, lines: seq<AnswerLine>, courses: seq<int>)
    requires forall i :: 0 <= i < |lines| ==> lines[i].courseCode !in courses
    ensures TallyLines(r, f, lines, courses) == r
  {
    if lines != [] {
      NonMemberLinesChangeNothing(r, f, lines[..|lines| - 1], courses);
    }
  }

  /** Handling the lines of file `f` changes no counter outside `Lo(f) .. Hi(f)`. */
  lemma {:induction false} TallyStaysInItsFields(r: Results, f: DataFile, lines: seq<AnswerLine>, courses: seq<int>, k: nat)
    requires k < FIELD_COUNT && !(Lo(f) <= k < Hi(f))
    ensures FieldsOf(TallyLines(r, f, lines, courses))[k] == FieldsOf(r)[k]
  {
    if lines != [] {
      var init := lines[..|lines| - 1];
      TallyStaysInItsFields(r, f, init, courses, k);
      CountStaysInItsFields(TallyLines(r, f, init, courses), f, lines[|lines| - 1].answer, k);
    }
  }

  /** The sum of a sequence of counters. */
  function Sum(s: seq<nat>): nat {
    if s == [] then 0 else Sum(s[..|s| - 1]) + s[|s| - 1]
  }

  /** The total over all the counters of file `f`'s question, `_null` included. */
  function QuestionTotal(r: Results, f: DataFile): nat {
    Sum(FieldsOf(r)[Lo(f)..Hi(f)])
  }

  /** One counter one higher makes the total one higher. */
  lemma {:induction false} SumOfBump(s: seq<nat>, t: seq<nat>, k: nat)
    requires |s| == |t| && k < |s|
    requires forall j :: 0 <= j < |s| ==> t[j] == s[j] + Indicator(j, k)
    ensures Sum(t) == Sum(s) + 1
  {
    var n := |s| - 1;
    if k == n {
      assert forall j :: 0 <= j < n ==> t[..n][j] == s[..n][j];
      assert t[..n] == s[..n];
    } else {
      SumOfBump(s[..n], t[..n], k);
    }
  }

  /** For arq25, arq27, arq28 and arq29 each ADS line adds exactly one to its question's counters. */
  lemma {:induction false} SwitchTotalsCountMembers(r: Results, f: DataFile, lines: seq<AnswerLine>, courses: seq<int>)
    requires IsSwitchFile(f)
    ensures QuestionTotal(TallyLines(r, f, lines, courses), f) == QuestionTotal(r, f) + MemberCount(lines, courses)
  {
    if lines != [] {
      var init := lines[..|lines| - 1];
      var last := lines[|lines| - 1];
      var before := TallyLines(r, f, init, courses);
      SwitchTotalsCountMembers(r, f, init, courses);
      if last.courseCode in courses {
        SwitchBumpsExactlyOne(before, f, last.answer);
        var k :| Lo(f) <= k < Hi(f) && BumpedOnce(before, Count(before, f, last.answer), k);
        var s := FieldsOf(before)[Lo(f)..Hi(f)];
        var t := FieldsOf(Count(before, f, last.answer))[Lo(f)..Hi(f)];
        assert forall j :: 0 <= j < |s| ==> t[j] == s[j] + Indicator(j, k - Lo(f)) by {
          forall j | 0 <= j < |s|
            ensures t[j] == s[j] + Indicator(j, k - Lo(f))
          {
            assert t[j] == FieldsOf(Count(before, f, last.answer))[Lo(f) + j];
          }
        }
        SumOfBump(s, t, k - Lo(f));
      }
    }
  }

  /**
    arq5: `total_students` counts every ADS line and `female_students` the ADS
    lines answering 'F', never more than the total; arq24: `tech_hs_students`
    counts the ADS lines answering 'B'; arq21: `affirmative_action_total`
    counts the ADS lines whose answer is affirmative.
   */
  lemma {:induction false} GatedTotals(r: Results, lines: seq<AnswerLine>, courses: seq<int>)
    requires r.femaleStudents <= r.totalStudents
    ensures TallyLines(r, Arq5, lines, courses).totalStudents == r.totalStudents + MemberCount(lines, courses)
    ensures TallyLines(r, Arq5, lines, courses).femaleStudents == r.femaleStudents + AnswerCount(lines, courses, 'F')
    ensures TallyLines(r, Arq5, lines, courses).femaleStudents <= TallyLines(r, Arq5, lines, courses).totalStudents
    ensures TallyLines(r, Arq24, lines, courses).techHsStudents == r.techHsStudents + AnswerCount(lines, courses, 'B')
    ensures TallyLines(r, Arq21, lines, courses).affirmativeActionTotal ==
      r.affirmativeActionTotal + AffirmativeCount(lines, courses)
  {
    if lines != [] {
      GatedTotals(r, lines[..|lines| - 1], courses);
    }
  }

  /** Every rank's accumulator keeps `female_students <= total_students`, whatever the files hold. */
  lemma {:induction false} RankKeepsFemaleBound(files: seq<InputFile>, rank: nat, worldSize: nat, courses: seq<int>)
    requires worldSize > 0
    ensures RankTally(files, rank, worldSize, courses).femaleStudents <= RankTally(files, rank, worldSize, courses).totalStudents
  {
    if files != [] {
      var prev := RankTally(files[..|files| - 1], rank, worldSize, courses);
      var file := files[|files| - 1];
      RankKeepsFemaleBound(files[..|files| - 1], rank, worldSize, courses);
      if file.content.Some? {
        TallyKeepsFemaleBound(prev, file.name, Owned(DataLines(file.content.value), rank, worldSize), courses);
      }
    }
  }

  lemma {:induction false} TallyKeepsFemaleBound(r: Results, f: DataFile, lines: seq<AnswerLine>, courses: seq<int>)
    requires r.femaleStudents <= r.totalStudents
    ensures TallyLines(r, f, lines, courses).femaleStudents <= TallyLines(r, f, lines, courses).totalStudents
  {
    if lines != [] {
      TallyKeepsFemaleBound(r, f, lines[..|lines| - 1], courses);
      CountKeepsFemaleBound(TallyLines(r, f, lines[..|lines| - 1], courses), f, lines[|lines| - 1].answer);
    }
  }
}
