/**
  The `MPI_Reduce(..., MPI_SUM, 0, ...)` of mpi_enade.c and the theorem that
  makes the parallel run correct: the round-robin split of every file's data
  lines over `worldSize` ranks, followed by the field-wise sum of the ranks'
  accumulators, gives what a single rank would count reading every line.
 */
module MpiReduce {
  import opened Wrappers
  import opened MpiResults
  import opened MpiTally
  import CourseList

  /**
    The field-wise sum of the first `n` ranks' `Results`, in rank order: what
    the root holds once the contributions of ranks `0 .. n - 1` are combined.
   */
  function ReduceUpTo(rs: seq<Results>, n: nat): Results
    requires n <= |rs|
  {
    if n == 0 then Zero() else Add(ReduceUpTo(rs, n - 1), rs[n - 1])
  }

  /** The reduced accumulator over every rank. */
  function Reduce(rs: seq<Results>): Results {
    ReduceUpTo(rs, |rs|)
  }

  /** `local_results` of every rank `0 .. worldSize - 1` after main's loop over `files`. */
  function PerRank(files: seq<InputFile>, worldSize: nat, courses: seq<int>): (rs: seq<Results>)
    requires worldSize > 0
    ensures |rs| == worldSize
  {
    seq(worldSize, rank requires 0 <= rank < worldSize => RankTally(files, rank, worldSize, courses))
  }

  /** Counter `k` summed over the first `n` ranks. */
  function ColumnSum(rs: seq<Results>, k: nat, n: nat): nat
    requires k < FIELD_COUNT && n <= |rs|
  {
    if n == 0 then 0 else ColumnSum(rs, k, n - 1) + FieldsOf(rs[n - 1])[k]
  }

  /** Each counter of the reduced accumulator is the sum of that counter over the ranks (MPI_SUM). */
  lemma {:induction false} ReduceFields(rs: seq<Results>, k: nat, n: nat)
    requires k < FIELD_COUNT && n <= |rs|
    ensures FieldsOf(ReduceUpTo(rs, n))[k] == ColumnSum(rs, k, n)
  {
    if n > 0 {
      ReduceFields(rs, k, n - 1);
      AddFields(ReduceUpTo(rs, n - 1), rs[n - 1]);
    }
  }

  /** Adding two sums term by term: `(a + b) + (c + d) == (a + c) + (b + d)`. */
  lemma AddInterchange(a: Results, b: Results, c: Results, d: Results)
    ensures Add(Add(a, b), Add(c, d)) == Add(Add(a, c), Add(b, d))
  {
    AddAssociative(a, b, Add(c, d));
    AddAssociative(b, c, d);
    AddCommutative(b, c);
    AddAssociative(c, b, d);
    AddAssociative(a, c, Add(b, d));
  }

  /** Counting a line into `r` adds to `r` what that line alone counts. */
  lemma TallyLineTranslation(r: Results, f: DataFile, line: AnswerLine, courses: seq<int>)
    ensures TallyLine(r, f, line, courses) == Add(r, TallyLine(Zero(), f, line, courses))
  {
    if line.courseCode in courses {
      CountIsTranslation(r, f, line.answer);
    } else {
      AddZero(r);
    }
  }

  /** Counting lines into `r` adds to `r` what those lines alone count. */
  lemma {:induction false} TallyLinesTranslation(r: Results, f: DataFile, lines: seq<AnswerLine>, courses: seq<int>)
    ensures TallyLines(r, f, lines, courses) == Add(r, TallyLines(Zero(), f, lines, courses))
  {
    if lines == [] {
      AddZero(r);
    } else {
      var init, last := lines[..|lines| - 1], lines[|lines| - 1];
      var t := TallyLines(Zero(), f, init, courses);
      var d := TallyLine(Zero(), f, last, courses);
      TallyLinesTranslation(r, f, init, courses);
      TallyLineTranslation(Add(r, t), f, last, courses);
      TallyLineTranslation(t, f, last, courses);
      AddAssociative(r, t, d);
    }
  }

  /** The same for one call of `process_data_file`. */
  lemma FileTallyTranslation(r: Results, file: InputFile, rank: nat, worldSize: nat, courses: seq<int>)
    requires worldSize > 0
    ensures FileTally(r, file, rank, worldSize, courses) == Add(r, FileTally(Zero(), file, rank, worldSize, courses))
  {
    match file.content {
      case None => AddZero(r);
      case Some(lines) => TallyLinesTranslation(r, file.name, Owned(DataLines(lines), rank, worldSize), courses);
    }
  }

  /** With a single rank, that rank handles every line. */
  lemma {:induction false} OwnedBySingleRank(lines: seq<AnswerLine>)
    ensures Owned(lines, 0, 1) == lines
  {
    if lines != [] {
      OwnedBySingleRank(lines[..|lines| - 1]);
    }
  }

  /** Appending line number `|lines|` extends the share of its owner and of no other rank. */
  lemma OwnedAppend(lines: seq<AnswerLine>, x: AnswerLine, rank: nat, worldSize: nat)
    requires worldSize > 0
    ensures Owned(lines + [x], rank, worldSize) ==
      Owned(lines, rank, worldSize) + (if |lines| % worldSize == rank then [x] else [])
  {
    assert (lines + [x])[..|lines|] == lines;
  }

  /** What rank `rank` counts of `lines`: its count of all but the last line, plus the last line if it owns it. */
  lemma RoundRobinStep(f: DataFile, lines: seq<AnswerLine>, worldSize: nat, courses: seq<int>, rank: nat)
    requires worldSize > 0 && lines != []
    ensures var n := |lines| - 1;
      TallyLines(Zero(), f, Owned(lines, rank, worldSize), courses) ==
      Add(TallyLines(Zero(), f, Owned(lines[..n], rank, worldSize), courses),
          if rank == n % worldSize then TallyLine(Zero(), f, lines[n], courses) else Zero())
  {
    var n := |lines| - 1;
    var owned := Owned(lines[..n], rank, worldSize);
    var t := TallyLines(Zero(), f, owned, courses);
    if rank == n % worldSize {
      assert Owned(lines, rank, worldSize) == owned + [lines[n]];
      TallyLinesSnoc(Zero(), f, owned, lines[n], courses);
      TallyLineTranslation(t, f, lines[n], courses);
    } else {
      assert Owned(lines, rank, worldSize) == owned;
      AddZero(t);
    }
  }

  /** The sum over ranks `0 .. n - 1` of what each counts of its share of `lines`. */
  function ShareTotal(f: DataFile, lines: seq<AnswerLine>, worldSize: nat, courses: seq<int>, n: nat): Results
    requires worldSize > 0
  {
    if n == 0 then Zero()
    else Add(ShareTotal(f, lines, worldSize, courses, n - 1),
             TallyLines(Zero(), f, Owned(lines, n - 1, worldSize), courses))
  }

  /** One more line adds its count to the ranks' total once the rank that owns it is among them. */
  lemma {:induction false} ShareTotalSnoc(f: DataFile, lines: seq<AnswerLine>, worldSize: nat, courses: seq<int>, n: nat)
    requires worldSize > 0 && lines != []
    ensures var last := |lines| - 1;
      ShareTotal(f, lines, worldSize, courses, n) ==
      Add(ShareTotal(f, lines[..last], worldSize, courses, n),
          if last % worldSize < n then TallyLine(Zero(), f, lines[last], courses) else Zero())
  {
    var last := |lines| - 1;
    if n == 0 {
      AddZero(Zero());
    } else {
      ShareTotalSnoc(f, lines, worldSize, courses, n - 1);
      ShareTotalSnocStep(f, lines, worldSize, courses, n);
    }
  }

  lemma ShareTotalSnocStep(f: DataFile, lines: seq<AnswerLine>, worldSize: nat, courses: seq<int>, n: nat)
    requires worldSize > 0 && lines != [] && n > 0
    requires var last := |lines| - 1;
      ShareTotal(f, lines, worldSize, courses, n - 1) ==
      Add(ShareTotal(f, lines[..last], worldSize, courses, n - 1),
          if last % worldSize < n - 1 then TallyLine(Zero(), f, lines[last], courses) else Zero())
    ensures var last := |lines| - 1;
      ShareTotal(f, lines, worldSize, courses, n) ==
      Add(ShareTotal(f, lines[..last], worldSize, courses, n),
          if last % worldSize < n then TallyLine(Zero(), f, lines[last], courses) else Zero())
  {
    var last := |lines| - 1;
    var init := lines[..last];
    RoundRobinStep(f, lines, worldSize, courses, n - 1);
    Regroup(ShareTotal(f, init, worldSize, courses, n - 1),
            TallyLines(Zero(), f, Owned(init, n - 1, worldSize), courses),
            TallyLine(Zero(), f, lines[last], courses), last % worldSize < n - 1, n - 1 == last % worldSize);
  }

  /** The bookkeeping of one step of `ShareTotalSnoc`: `d` is added at most once. */
  lemma Regroup(s: Results, t: Results, d: Results, before: bool, here: bool)
    requires !(before && here)
    ensures Add(Add(s, if before then d else Zero()), Add(t, if here then d else Zero())) ==
            Add(Add(s, t), if before || here then d else Zero())
  {
    AddZero(s);
    AddZero(t);
    AddZero(Add(s, t));
    if before {
      AddAssociative(s, d, t);
      AddCommutative(d, t);
      AddAssociative(s, t, d);
    } else if here {
      AddAssociative(s, t, d);
    }
  }

  /** No lines, nothing counted, however many ranks. */
  lemma {:induction false} ShareTotalOfNothing(f: DataFile, lines: seq<AnswerLine>, worldSize: nat, courses: seq<int>, n: nat)
    requires worldSize > 0 && lines == []
    ensures ShareTotal(f, lines, worldSize, courses, n) == Zero()
  {
    if n > 0 {
      ShareTotalOfNothing(f, lines, worldSize, courses, n - 1);
      AddZero(Zero());
    }
  }

  /**
    One file: the ranks' counts of their round-robin shares of `lines`, summed
    over all `worldSize` ranks, are the count of all of `lines`.
   */
  lemma {:induction false} RoundRobinFile(f: DataFile, lines: seq<AnswerLine>, worldSize: nat, courses: seq<int>)
    requires worldSize > 0
    ensures ShareTotal(f, lines, worldSize, courses, worldSize) == TallyLines(Zero(), f, lines, courses)
  {
    if lines == [] {
      ShareTotalOfNothing(f, lines, worldSize, courses, worldSize);
    } else {
      var last := |lines| - 1;
      ShareTotalSnoc(f, lines, worldSize, courses, worldSize);
      RoundRobinFile(f, lines[..last], worldSize, courses);
      TallyLineTranslation(TallyLines(Zero(), f, lines[..last], courses), f, lines[last], courses);
    }
  }

  /** What ranks `0 .. n - 1` count of one file, summed: nothing when it cannot be opened. */
  function FileTotal(file: InputFile, worldSize: nat, courses: seq<int>, n: nat): Results
    requires worldSize > 0
  {
    match file.content
    case None => Zero()
    case Some(lines) => ShareTotal(file.name, DataLines(lines), worldSize, courses, n)
  }

  /** The sum of the accumulators of ranks `0 .. n - 1` after the loop over `files`. */
  function RankTotal(files: seq<InputFile>, worldSize: nat, courses: seq<int>, n: nat): Results
    requires worldSize > 0
  {
    if n == 0 then Zero()
    else Add(RankTotal(files, worldSize, courses, n - 1), RankTally(files, n - 1, worldSize, courses))
  }

  /** Reducing the ranks' accumulators is summing them in rank order. */
  lemma {:induction false} ReduceIsRankTotal(files: seq<InputFile>, worldSize: nat, courses: seq<int>, n: nat)
    requires 0 < worldSize && n <= worldSize
    ensures ReduceUpTo(PerRank(files, worldSize, courses), n) == RankTotal(files, worldSize, courses, n)
  {
    if n > 0 {
      ReduceIsRankTotal(files, worldSize, courses, n - 1);
    }
  }

  /** One more file adds, over the ranks, what they count of that file. */
  lemma {:induction false} RankTotalSnoc(files: seq<InputFile>, worldSize: nat, courses: seq<int>, n: nat)
    requires worldSize > 0 && files != []
    ensures var last := |files| - 1;
      RankTotal(files, worldSize, courses, n) ==
      Add(RankTotal(files[..last], worldSize, courses, n), FileTotal(files[last], worldSize, courses, n))
  {
    var last := |files| - 1;
    var init, file := files[..last], files[last];
    if n == 0 {
      AddZero(Zero());
    } else {
      var rank := n - 1;
      RankTotalSnoc(files, worldSize, courses, rank);
      FileTallyTranslation(RankTally(init, rank, worldSize, courses), file, rank, worldSize, courses);
      AddInterchange(RankTotal(init, worldSize, courses, rank), FileTotal(file, worldSize, courses, rank),
                     RankTally(init, rank, worldSize, courses), FileTally(Zero(), file, rank, worldSize, courses));
      if file.content.None? {
        AddZero(Zero());
      }
    }
  }

  /** No files, nothing counted, however many ranks. */
  lemma {:induction false} RankTotalOfNothing(files: seq<InputFile>, worldSize: nat, courses: seq<int>, n: nat)
    requires worldSize > 0 && files == []
    ensures RankTotal(files, worldSize, courses, n) == Zero()
  {
    if n > 0 {
      RankTotalOfNothing(files, worldSize, courses, n - 1);
      AddZero(Zero());
    }
  }

  /** The ranks' accumulators, summed over all `worldSize` ranks, are the single-rank accumulator. */
  lemma {:induction false} RankTotalIsSingleRank(files: seq<InputFile>, worldSize: nat, courses: seq<int>)
    requires worldSize > 0
    ensures RankTotal(files, worldSize, courses, worldSize) == RankTally(files, 0, 1, courses)
  {
    if files == [] {
      RankTotalOfNothing(files, worldSize, courses, worldSize);
    } else {
      var last := |files| - 1;
      var init, file := files[..last], files[last];
      RankTotalSnoc(files, worldSize, courses, worldSize);
      RankTotalIsSingleRank(init, worldSize, courses);
      FileTallyTranslation(RankTally(init, 0, 1, courses), file, 0, 1, courses);
      match file.content {
        case None =>
        case Some(lines) =>
          RoundRobinFile(file.name, DataLines(lines), worldSize, courses);
          OwnedBySingleRank(DataLines(lines));
      }
    }
  }

  /**
    The whole run: whatever the number of ranks, the reduced accumulator over
    all ranks equals the accumulator of a single rank that reads every data
    line of every file.
   */
  lemma RoundRobinReduction(files: seq<InputFile>, worldSize: nat, courses: seq<int>)
    requires worldSize > 0
    ensures Reduce(PerRank(files, worldSize, courses)) == RankTally(files, 0, 1, courses)
  {
    ReduceIsRankTotal(files, worldSize, courses, worldSize);
    RankTotalIsSingleRank(files, worldSize, courses);
  }

  /** The multiset of lines handled by ranks `0 .. n - 1`. */
  function HandledBy(lines: seq<AnswerLine>, worldSize: nat, n: nat): multiset<AnswerLine>
    requires worldSize > 0
  {
    if n == 0 then multiset{} else HandledBy(lines, worldSize, n - 1) + multiset(Owned(lines, n - 1, worldSize))
  }

  lemma {:induction false} HandledByOneMore(lines: seq<AnswerLine>, x: AnswerLine, worldSize: nat, n: nat)
    requires worldSize > 0 && n <= worldSize
    ensures HandledBy(lines + [x], worldSize, n) ==
      HandledBy(lines, worldSize, n) + (if |lines| % worldSize < n then multiset{x} else multiset{})
  {
    if n > 0 {
      HandledByOneMore(lines, x, worldSize, n - 1);
      OwnedAppend(lines, x, n - 1, worldSize);
    }
  }

  /** Every data line is handled by exactly one rank: the ranks' shares make up the file. */
  lemma {:induction false} RoundRobinHandlesEachLineOnce(lines: seq<AnswerLine>, worldSize: nat)
    requires worldSize > 0
    ensures HandledBy(lines, worldSize, worldSize) == multiset(lines)
  {
    if lines == [] {
      HandledNothing(lines, worldSize, worldSize);
    } else {
      var init, last := lines[..|lines| - 1], lines[|lines| - 1];
      RoundRobinHandlesEachLineOnce(init, worldSize);
      HandledByOneMore(init, last, worldSize, worldSize);
      assert init + [last] == lines;
    }
  }

  lemma {:induction false} HandledNothing(lines: seq<AnswerLine>, worldSize: nat, n: nat)
    requires worldSize > 0 && lines == []
    ensures HandledBy(lines, worldSize, n) == multiset{}
  {
    if n > 0 {
      HandledNothing(lines, worldSize, n - 1);
    }
  }

  /**
    `main` of mpi_enade.c, with the ranks run one after another: rank 0 builds
    the ADS list from arq1 and broadcasts it, every rank runs its loop over the
    data files, and the root sums the ranks' accumulators.  An arq1 that does
    not open (`None`) ends in `MPI_Abort` and no result.  Otherwise the result
    is a single rank's count over every data line against the codes of arq1.
   */
  method RunProgram(arq1: Option<seq<CourseList.RefRow>>, files: seq<InputFile>, worldSize: nat)
    returns (global: Option<Results>)
    requires worldSize > 0
    ensures global.None? <==> arq1.None?
    ensures arq1.Some? ==> global == Some(RankTally(files, 0, 1, CourseList.AdsCourses(arq1.value)))
    ensures global.Some? ==> global.value.femaleStudents <= global.value.totalStudents
  {
    if arq1.None? {
      return None;
    }
    var list := CourseList.BuildAdsCourses(arq1.value);
    var courses := list.Contents();
    var locals: seq<Results> := [];
    for rank := 0 to worldSize
      invariant |locals| == rank
      invariant forall i :: 0 <= i < rank ==> locals[i] == RankTally(files, i, worldSize, courses)
    {
      var local := RunRank(files, rank, worldSize, courses);
      locals := locals + [local];
    }
    assert locals == PerRank(files, worldSize, courses);
    RoundRobinReduction(files, worldSize, courses);
    RankKeepsFemaleBound(files, 0, 1, courses);
    global := Some(Reduce(locals));
  }
}
