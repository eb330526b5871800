# ENADE microdata counters, modelled in Dafny

Three C programs filter the 2021 ENADE microdata down to the course group 72
(Análise e Desenvolvimento de Sistemas, ADS/TADS) and count survey answers.
This project models the deterministic core of each one and proves what the
programs promise about it.

- **mpi_enade.c**. Rank 0 builds the list of ADS course codes from arq1. It is a
  duplicate-free `int` array that `realloc` grows to 100 entries and then
  by doubling.
  - Every rank then reads the seven answer files (`process_data_file`). It
    handles the data lines whose number is its rank modulo the number of ranks.
  - For an ADS line it moves the counter of the `Results` struct that the
    answer letter selects.
  - `MPI_Reduce(MPI_SUM)` adds the 27 counters field by field.
  - The model proves that the round-robin split followed by the sum gives
    exactly what one rank reading every line would count.
  - Modules `MpiResults`, `CourseList`, `MpiTally` and `MpiReduce`.
- **enade_ficticio.c**. Rank 0 unifies the seven question files into one record
  per student id.
  - Each stored answer is trimmed by `limpar_aspas_e_espacos`.
  - Rank 0 splits the records into one block per rank, `bloco_base + (i < resto)`
    records each. Ranks 1 .. n-1 get consecutive blocks from the start, and
    rank 0 keeps the last one.
  - Each rank runs `analisar_dados_aluno` over its block, and the partial
    results are added by `MPI_Reduce`.
  - Modules `Sanitizer`, `StudentAnalysis`, `Unification`, `RecordLayout` and
    `BlockPartition`.
- **totalAlunos.c**. Counts the lines of arq1 after the header whose sixth
  `strtok(";")` token is exactly `"72"`. Module `GroupCounter`.

How the source is rendered:
- Loops and in-place updates are Dafny methods with loop invariants. Each is
  proved equal to a recursive specification function, and the properties are
  lemmas about those functions.
- The course list is a class over an `array<int>`. The trim works on an
  `array<char>` holding a NUL-terminated string.
- Files are sequences of lines. The lines are parsed tuples where the C code
  uses `sscanf`, `strtok_r` or `atol`, and text where `strtok` itself is
  modelled (totalAlunos.c).
- Every input file is an `Option`: a file that `fopen` cannot open is `None`.
  For arq1 in mpi_enade.c that ends the run in `MPI_Abort`, with no result. For the
  data files and question files it is skipped, and totalAlunos.c reports it.
- MPI ranks are indices `0 .. n - 1`.

## Model

| member | source | states |
|---|---|---|
| MpiResults.FieldsOf | mpi_enade.c:10-25 | The struct seen as the array MPI_Reduce sums: exactly 27 counters |
| MpiResults.FieldsOfInjective | mpi_enade.c:269-270 | The array view loses nothing: equal counter arrays mean equal structs |
| MpiResults.AddFields | mpi_enade.c:269-270 | Counter k of the MPI_SUM of two structs is the sum of the two counters k |
| MpiResults.AddZero | mpi_enade.c:252 | `{0}` is the neutral element of the field-wise sum |
| MpiResults.AddCommutative | mpi_enade.c:270 | The field-wise sum does not depend on the order of the ranks |
| MpiResults.AddAssociative | mpi_enade.c:270 | The field-wise sum does not depend on how it is grouped |
| MpiResults.Hi | mpi_enade.c:10-25 | Each file's counters form a non-empty range inside the 27 counters |
| MpiResults.Count | mpi_enade.c:63-95 | Definition, no contract: what one ADS line of a file does to the accumulator. Its properties are stated by SwitchIsUnit, SwitchBumpsExactlyOne, CountStaysInItsFields, CountIsTranslation and CountKeepsFemaleBound |
| MpiResults.CountIncentive | mpi_enade.c:72-77 | Definition, no contract: the arq25 switch. Its meaning is stated by IncentiveIsUnit |
| MpiResults.CountFamilyGraduated | mpi_enade.c:78-82 | Definition, no contract: the arq27 switch. Its meaning is stated by FamilyGraduatedIsUnit |
| MpiResults.CountBooks | mpi_enade.c:83-88 | Definition, no contract: the arq28 switch. Its meaning is stated by BooksIsUnit |
| MpiResults.CountStudyHours | mpi_enade.c:89-94 | Definition, no contract: the arq29 switch. Its meaning is stated by StudyHoursIsUnit |
| MpiResults.SwitchCounter | mpi_enade.c:72-94 | The counter every case label (and the `default`) of the four switches selects lies in its question's range |
| MpiResults.UnitFields | mpi_enade.c:72-94 | The one-counter increment has a 1 at its counter and 0 everywhere else |
| MpiResults.SwitchIsUnit | mpi_enade.c:72-94 | In arq25, arq27, arq28 and arq29 a line adds one to exactly the counter its letter selects |
| MpiResults.IncentiveIsUnit | mpi_enade.c:72-77 | The arq25 switch, letter by letter, with `_null` for any other letter |
| MpiResults.FamilyGraduatedIsUnit | mpi_enade.c:78-82 | The arq27 switch, letter by letter, with `_null` for any other letter |
| MpiResults.BooksIsUnit | mpi_enade.c:83-88 | The arq28 switch, letter by letter, with `_null` for any other letter |
| MpiResults.StudyHoursIsUnit | mpi_enade.c:89-94 | The arq29 switch, letter by letter, with `_null` for any other letter |
| MpiResults.SwitchBumpsExactlyOne | mpi_enade.c:72-94 | There is one counter of the question that goes up by one, and every other one of the 27 stays |
| MpiResults.CountStaysInItsFields | mpi_enade.c:63-95 | A line of a file changes no counter outside that file's question |
| MpiResults.SwitchStaysInItsFields | mpi_enade.c:72-94 | The same, for the four switch files |
| MpiResults.GatedStaysInItsFields | mpi_enade.c:64-70 | The same, for arq5, arq24 and arq21 |
| MpiResults.SexStaysInItsFields | mpi_enade.c:64-66 | arq5 changes only the first two counters |
| MpiResults.TechnicalStaysInItsField | mpi_enade.c:67-68 | arq24 changes only `tech_hs_students` |
| MpiResults.AffirmativeStaysInItsField | mpi_enade.c:69-70 | arq21 changes only `affirmative_action_total` |
| MpiResults.CountIsTranslation | mpi_enade.c:63-95 | Counting a line into any accumulator adds what that line counts from `{0}` |
| MpiResults.CountKeepsFemaleBound | mpi_enade.c:64-66 | No line of any file can make `female_students` exceed `total_students` |
| CourseList.NextCapacity | mpi_enade.c:220 | The growth rule's capacities are 100, 200, 400, ..., and each step is larger than the last |
| CourseList.AdsCourseList.constructor | mpi_enade.c:191-195 | The list starts empty with capacity 0 |
| CourseList.AdsCourseList.Contains | mpi_enade.c:28-33 | `is_course_in_list` is 1 exactly when the code is among the first `num_ads_courses` entries |
| CourseList.AdsCourseList.Append | mpi_enade.c:219-230 | Appends the code after the entries in place. When the array is full it grows to the next capacity with the old entries copied. Keeps `num_ads_courses <= capacity` |
| CourseList.AdmitRow | mpi_enade.c:216-231 | One row changes the list exactly as the specification of the build loop says |
| CourseList.BuildAdsCourses | mpi_enade.c:205-233 | The list after the loop over arq1 is `AdsCourses(file)`, the codes of the qualifying data rows, each kept once, in first-seen order |
| CourseList.Collect | mpi_enade.c:214-231 | Definition, no contract: the course codes of the qualifying rows, each kept once, in first-seen order. Its properties are stated by CollectDistinct and CollectMembers |
| CourseList.AdsCourses | mpi_enade.c:205-233 | Definition, no contract: `Collect` over the rows after the header. Its properties are stated by AdsCoursesMembers and AdsCoursesOrderIndependent |
| CourseList.CollectDistinct | mpi_enade.c:216-218 | The list never holds a code twice |
| CourseList.CollectMembers | mpi_enade.c:214-231 | A code is in the list iff some row has `items_read >= 2`, group 72 and that code |
| CourseList.AdsCoursesMembers | mpi_enade.c:205-233 | The same for a whole file: the header row never contributes |
| CourseList.AdsCoursesOrderIndependent | mpi_enade.c:205-233 | Reordering the data rows may reorder the list but changes neither its codes nor its length |
| MpiTally.Owned | mpi_enade.c:52-56 | Definition, no contract: the data lines whose index modulo `world_size` is the rank, in order. Its properties are stated by RoundRobinHandlesEachLineOnce and OwnedBySingleRank |
| MpiTally.TallyLine | mpi_enade.c:61-96 | Definition, no contract: `Count` for an ADS line, nothing for another line |
| MpiTally.TallyLines | mpi_enade.c:55-99 | Definition, no contract: the lines counted one after another |
| MpiTally.FileTally | mpi_enade.c:44-101 | Definition, no contract: nothing for a file that does not open, otherwise the rank's own data lines counted |
| MpiTally.RankTally | mpi_enade.c:252-264 | Definition, no contract: `FileTally` over the files in order, from `{0}` |
| MpiTally.IsAdsCourse | mpi_enade.c:36-41 | `is_ads_course` is 1 exactly when the code is in the broadcast list |
| MpiTally.ProcessDataFile | mpi_enade.c:44-101 | The accumulator after one call is `FileTally`: a file that does not open changes nothing. Otherwise the header is dropped, the rank handles the lines `k` with `k % world_size == rank`, and it counts only ADS lines |
| MpiTally.RunRank | mpi_enade.c:252-264 | A rank's `local_results` after main's loop is `RankTally` over the files, from `{0}` |
| MpiTally.NonMemberLinesChangeNothing | mpi_enade.c:63 | Lines whose course is not in the list leave every counter as it is |
| MpiTally.TallyStaysInItsFields | mpi_enade.c:63-95 | Any run of lines of a file leaves all counters outside that file's question as they are |
| MpiTally.SwitchTotalsCountMembers | mpi_enade.c:72-94 | For arq25, arq27, arq28, arq29 the question's counters (`_null` included) grow by exactly the number of ADS lines |
| MpiTally.GatedTotals | mpi_enade.c:64-70 | arq5: `total_students` grows by the number of ADS lines and `female_students` by the ADS lines answering 'F', never more than the total. arq24: `tech_hs_students` grows by the ADS lines answering 'B'. arq21: `affirmative_action_total` grows by the ADS lines whose answer is affirmative. Each count is a separate counting function over the lines |
| MpiTally.TallyKeepsFemaleBound | mpi_enade.c:55-99 | `female_students <= total_students` holds after any run of lines |
| MpiTally.RankKeepsFemaleBound | mpi_enade.c:252-264 | Every rank's accumulator keeps `female_students <= total_students` |
| MpiReduce.Reduce | mpi_enade.c:268-270 | Definition, no contract: the field-wise sum of the ranks' accumulators. Its meaning is stated by ReduceFields |
| MpiReduce.PerRank | mpi_enade.c:252-264 | One accumulator per rank `0 .. world_size - 1`, each that rank's `RankTally` |
| MpiReduce.ReduceFields | mpi_enade.c:269-270 | Counter k of the reduced struct is counter k summed over the ranks |
| MpiReduce.TallyLinesTranslation | mpi_enade.c:55-99 | Counting lines into an accumulator adds what those lines count from `{0}` |
| MpiReduce.FileTallyTranslation | mpi_enade.c:44-101 | The same for one call of `process_data_file` |
| MpiReduce.OwnedBySingleRank | mpi_enade.c:56 | With one rank, that rank handles every data line |
| MpiReduce.RoundRobinFile | mpi_enade.c:52-99 | For one file, the ranks' counts of their round-robin shares add up to the count of all its lines |
| MpiReduce.RankTotalSnoc | mpi_enade.c:260-264 | One more file adds, over all ranks, what the ranks count of it |
| MpiReduce.ReduceIsRankTotal | mpi_enade.c:268-270 | The reduction is the sum of the ranks' accumulators in rank order |
| MpiReduce.RankTotalIsSingleRank | mpi_enade.c:252-270 | The ranks' accumulators summed over all ranks equal the accumulator of a single rank |
| MpiReduce.RoundRobinReduction | mpi_enade.c:252-270 | For any number of ranks, the reduced result equals one rank reading every data line of every file |
| MpiReduce.HandledByOneMore | mpi_enade.c:55-56 | A new last line is handled by ranks `0 .. n-1` exactly when its owner is among them |
| MpiReduce.RoundRobinHandlesEachLineOnce | mpi_enade.c:52-98 | The multiset union of the ranks' shares is the multiset of data lines: each line is handled by exactly one rank |
| MpiReduce.RunProgram | mpi_enade.c:186-270 | The three stages composed. An arq1 that does not open gives no result (the `MPI_Abort` at lines 199-203), and only that case does. Otherwise the ADS list built from arq1, every rank's loop and the MPI_SUM give a single rank's count of every data line against `AdsCourses(arq1)`, with `female_students <= total_students` |
| Sanitizer.Trim | enade_ficticio.c:55 | Definition, no contract: the string without its leading and trailing runs of spaces and quotes. Its meaning is stated by TrimShape, TrimOfTrimmed and TrimIdempotent |
| Sanitizer.Strlen | enade_ficticio.c:55 | `strlen` is the index of the first NUL |
| Sanitizer.SkipFromSpec | enade_ficticio.c:55 | The forward scan from `inicio` passes only spaces and quotes and stops at the first other character |
| Sanitizer.BackFromSpec | enade_ficticio.c:55 | The backward scan from `fim` passes only spaces and quotes and stops after the last other character, never going below `inicio` |
| Sanitizer.TrimShape | enade_ficticio.c:55 | The string is a stripped run, then the trimmed string (neither end stripped), then a stripped run. So the cut runs are maximal and the interior is untouched |
| Sanitizer.TrimOfTrimmed | enade_ficticio.c:55 | A string with no space or quote at either end is left as it is |
| Sanitizer.TrimIdempotent | enade_ficticio.c:55 | Trimming twice is trimming once |
| Sanitizer.StringLength | enade_ficticio.c:55 | The `strlen` loop over the buffer returns `Strlen` |
| Sanitizer.SkipStripped | enade_ficticio.c:55 | The first `while` leaves `inicio` at the start of the trimmed string |
| Sanitizer.BackStripped | enade_ficticio.c:55 | The second `while` leaves `fim + 1` at the end of the trimmed string |
| Sanitizer.MoveDown | enade_ficticio.c:55 | `memmove` down: the first `count` bytes become the moved ones and the rest stay |
| Sanitizer.Sanitize | enade_ficticio.c:55 | On a non-null buffer, the C string afterwards is the trim of the C string before. The kept bytes move to the front, NULs are written at the new end and at the old cut, and every other byte stays. A null buffer is left alone |
| Sanitizer.KeptPartIsTheString | enade_ficticio.c:55 | Moving the kept run to the front and terminating it yields exactly that run as the C string |
| StudentAnalysis.AddZero | enade_ficticio.c:195-196 | `{0}` is neutral for the MPI_SUM of `ResultadosAnaliseCompleta` |
| StudentAnalysis.AddCommutative | enade_ficticio.c:196 | The sum of the partial results does not depend on the rank order |
| StudentAnalysis.AddAssociative | enade_ficticio.c:196 | The sum of the partial results does not depend on grouping |
| StudentAnalysis.AnalyzeStudent | enade_ficticio.c:58-77 | Definition, no contract: the new value of `*resultados` after one student. Its properties are stated by AnalyzeCountsStudent, AnalyzeGate, AnalyzeWomen, AnalyzeKeepsNested and AnalyzeIsTranslation |
| StudentAnalysis.CountScaleBumpsOne | enade_ficticio.c:64-65 | A books or study-hours chain raises no counter but one, by one, for "A" to "E", and none for any other answer |
| StudentAnalysis.CountIncentiveBumpsOne | enade_ficticio.c:74 | The incentive chain raises no counter but one, by one, for "B" to "G", and none for any other answer |
| StudentAnalysis.AddScaleTotal | enade_ficticio.c:196 | The total of a summed scale is the sum of the totals |
| StudentAnalysis.AnalyzeCountsStudent | enade_ficticio.c:59-65 | Each call adds exactly one student and moves at most one books and one study-hours counter, by the answer |
| StudentAnalysis.AnalyzeGate | enade_ficticio.c:60-76 | `alunos_aa` goes up exactly when the answer is non-empty and neither "A" nor ".". When the gate fails, no gated counter moves, and only then |
| StudentAnalysis.AnalyzeWomen | enade_ficticio.c:61-75 | `mulheres_aa` goes up exactly for affirmative-action women. For them the incentive total grows by one exactly on an answer "B" to "G", and `mulheres_aa_tecnico` exactly on "B". For everyone else the incentive and technical-school counters stay, and no incentive counter ever goes down |
| StudentAnalysis.AnalyzeKeepsNested | enade_ficticio.c:58-77 | Each call preserves the nesting: `mulheres_aa <= alunos_aa <= total`, `familiares_graduados_aa <= alunos_aa`, `mulheres_aa_tecnico <= mulheres_aa`, incentives `<= mulheres_aa`, books and study totals `<= total` |
| StudentAnalysis.AnalyzeIsTranslation | enade_ficticio.c:58-77 | Analysing a student into any result adds what that student counts from `{0}` |
| StudentAnalysis.AnalyzeBlock | enade_ficticio.c:189-191 | The analysis loop over a block computes `AnalyzeAll` from `{0}` |
| StudentAnalysis.AnalyzeAllCounts | enade_ficticio.c:189-191 | After a block: the student count is the block's length, `alunos_aa` is the number of affirmative-action students, and the nesting holds |
| StudentAnalysis.AnalyzeAllTranslation | enade_ficticio.c:189-191 | Starting from any result adds the block's own count |
| StudentAnalysis.AnalyzeAllSplit | enade_ficticio.c:189-196 | Analysing two blocks in one pass equals adding their separate results |
| StudentAnalysis.IsTadsCourse | enade_ficticio.c:56 | `eh_curso_tads` is 1 exactly when one of the first `contagem` entries is string-equal to the code |
| Unification.UnifyLine | enade_ficticio.c:120-159 | Definition, no contract: one data line's skip, update or append. Its properties are stated by NewStudentAppends, KnownStudentWritesOneField and UnifyLineLookup |
| Unification.UnifyLines | enade_ficticio.c:119-160 | Definition, no contract: the file's data lines applied in order. Its properties are stated by OnlyWellFormedLinesMatter and UnifyLinesLookup |
| Unification.UnifyFile | enade_ficticio.c:114-161 | Definition, no contract: nothing for a file that does not open, otherwise its lines after the header |
| Unification.UnifyFiles | enade_ficticio.c:113-162 | Definition, no contract: the first n question files in `IndiceQuestao` order, from the empty base |
| Unification.UnifyAll | enade_ficticio.c:113-162 | Definition, no contract: all seven files. Its meaning is stated by UnifiedIdsDistinct and UnifiedDossiers |
| Unification.SetField | enade_ficticio.c:147-157 | The `switch (i)` writes the field of question i and no other field |
| Unification.SetFieldTwice | enade_ficticio.c:157 | A later write of the same field overrides an earlier one |
| Unification.StoredAnswer | enade_ficticio.c:131-157 | The stored answer is the trimmed answer cut to at most two characters, and is the whole trimmed answer when that fits |
| Unification.IndexOf | enade_ficticio.c:134-135 | The search yields the first record with the id, or none when no record has it |
| Unification.FindStudent | enade_ficticio.c:134-135 | The search loop returns -1 exactly when no record has the id, and otherwise the first index that does |
| Unification.ApplyLine | enade_ficticio.c:120-159 | One line's work on the base is `UnifyLine` |
| Unification.UnifyQuestionFile | enade_ficticio.c:114-161 | One question file's pass (skipped when it does not open, header dropped) is `UnifyFile` |
| Unification.Unify | enade_ficticio.c:113-162 | The whole unification loop builds `UnifyAll(files)` |
| Unification.Lookup | enade_ficticio.c:135 | A record for the id is found exactly when the base holds that id |
| Unification.WellFormedLines | enade_ficticio.c:125 | The lines that have id, course and answer tokens, in order: exactly those lines of the file, and no others |
| Unification.OnlyWellFormedLinesMatter | enade_ficticio.c:119-160 | The base after a whole file equals the base after only its well-formed lines: skipped lines play no part |
| Unification.NewStudentAppends | enade_ficticio.c:138-157 | An unseen id appends one record whose answers are blank except the current question's field. The old records stay |
| Unification.KnownStudentWritesOneField | enade_ficticio.c:135-157 | A known id rewrites only the current question's field of its record. Every other record and field stays |
| Unification.UnifyLineKeepsDistinct | enade_ficticio.c:134-144 | One line keeps the ids pairwise distinct |
| Unification.UnifyLinesKeepsDistinct | enade_ficticio.c:119-160 | A file's lines keep the ids pairwise distinct |
| Unification.UnifyFilesKeepsDistinct | enade_ficticio.c:113-162 | The first n files leave the ids pairwise distinct |
| Unification.UnifiedIdsDistinct | enade_ficticio.c:113-162 | The unified base holds each student once |
| Unification.IndexOfSameId | enade_ficticio.c:157 | Writing a record without changing its id leaves every search result as it was |
| Unification.IndexOfAppend | enade_ficticio.c:138-142 | After appending a record, searches find what they found before, or the new record if its id was new |
| Unification.UnifyLineLookup | enade_ficticio.c:120-159 | After a line, the record of student x is unchanged unless the line is well formed and for x. Then it is x's record (or a blank one) with the question's field set to the stored answer |
| Unification.UnifyLinesLookup | enade_ficticio.c:119-160 | After a file's lines, x's record has the question's field set to x's last well-formed answer in the file, if there is one |
| Unification.Dossier | enade_ficticio.c:113-162 | Field q of x's dossier after n files is what file q stores for x, or blank |
| Unification.AnswersByFields | enade_ficticio.c:29-32 | Two answer sets with the same seven fields are equal |
| Unification.SeenInStep | enade_ficticio.c:113-162 | n files see x iff the first n-1 do or file n-1 does |
| Unification.LookupStepSkips | enade_ficticio.c:114-160 | A file without a line for x (or one that does not open) leaves x's lookup as it is |
| Unification.LookupStepStores | enade_ficticio.c:138-157 | A file with a line for x sets x's field for that question, on x's record or a new blank one |
| Unification.UnifyFilesLookupStep | enade_ficticio.c:113-162 | The dossier claim for n-1 files extends to n files |
| Unification.UnifyFilesLookup | enade_ficticio.c:113-162 | After n files, x has a record iff some of them has a line for x, and that record is x's dossier |
| Unification.UnifiedDossiers | enade_ficticio.c:113-162 | The unified base has a record for exactly the students some question file answers for. Its field q is the last answer file q stores for them, or blank |
| RecordLayout.SentMatchesOnlyFirstStudent | enade_ficticio.c:172-177 | As written: byte j of what is sent equals the intended answer byte iff j < 14, so only the block's first student survives |
| RecordLayout.SecondStudentMisread | enade_ficticio.c:172-177 | As written: the second student's affirmative-action answer is read from the first record's padding, and its sex answer from the next record's id |
| RecordLayout.PackedIsIntended | enade_ficticio.c:172-177 | Corrected: packing record by record gives every byte of the block the answer byte it is meant to hold |
| RecordLayout.PackedBytesAreBlockEntries | enade_ficticio.c:172-177 | Corrected: byte `14*i + j` of the packed buffer is answer byte `j` of record `pos + i`, and entry `i` of `AnswersOf(base[pos..pos+count])` holds that record's answers. This ties the byte view to the record view |
| RecordLayout.AnswersOf | enade_ficticio.c:35-38 | The answers of a run of records, one per record, in order |
| RecordLayout.AnswersOfSlices | enade_ficticio.c:172-177 | Consecutive slices of records give consecutive runs of answers |
| RecordLayout.PackBlock | enade_ficticio.c:172-177 | Corrected send buffer: the answers of records `pos .. pos+count-1`, in order |
| BlockPartition.BlockSize | enade_ficticio.c:166-175 | Definition, no contract: `bloco_base + (i < resto ? 1 : 0)`. Its properties are stated by SizesBalanced and SizesSum |
| BlockPartition.SendStart | enade_ficticio.c:168-173 | Definition, no contract: `pos_atual` when rank i's block is sent. Its closed form is stated by SendStartClosedForm |
| BlockPartition.BlockStart | enade_ficticio.c:168-177 | Definition, no contract: where rank i's block starts, with rank 0's after rank n-1's. Its properties are stated by BlocksContiguous |
| BlockPartition.Partition | enade_ficticio.c:166-177 | Definition, no contract: the block of each rank, rank 0's first. Its properties are stated by PartitionShape and PartitionCovers |
| BlockPartition.SizesBalanced | enade_ficticio.c:166-175 | Block sizes are `bloco_base` or `bloco_base + 1`, differ by at most one, and a rank below `resto` never gets the smaller one |
| BlockPartition.SendStartClosedForm | enade_ficticio.c:168-173 | `pos_atual` at rank i, plus rank 0's size, is `i*bloco_base + min(i, resto)` |
| BlockPartition.SizesSum | enade_ficticio.c:166-177 | The block sizes add up to `tamanho_base_dados` |
| BlockPartition.SendBound | enade_ficticio.c:169-173 | `pos_atual` never passes the end of the base |
| BlockPartition.BlocksContiguous | enade_ficticio.c:168-177 | Rank 1 starts at 0, each block starts where the previous one ends, rank 0's follows rank n-1's, and it ends at the end of the base |
| BlockPartition.BlockFits | enade_ficticio.c:169-177 | Every block lies inside the base |
| BlockPartition.SentBlocksAt | enade_ficticio.c:169-174 | The block sent to rank k is the slice of rank k |
| BlockPartition.PartitionShape | enade_ficticio.c:166-177 | There are n blocks, and block i is the answers of the slice `BlockStart(i) .. BlockStart(i) + BlockSize(i)` |
| BlockPartition.SentBlocksCover | enade_ficticio.c:169-174 | The blocks sent so far are, in order, the answers of the base up to `pos_atual` |
| BlockPartition.PartitionCovers | enade_ficticio.c:166-177 | Ranks 1 .. n-1's blocks followed by rank 0's are all the answers of the base, in order, with no gap or overlap |
| BlockPartition.SendStep | enade_ficticio.c:170-173 | One turn of the send loop: the block fits, is the slice at `pos_atual`, and moves `pos_atual` past it |
| BlockPartition.SliceAt | enade_ficticio.c:170-177 | The size the source computes from `pos_atual` gives exactly rank i's slice |
| BlockPartition.SendBlocks | enade_ficticio.c:169-174 | The send loop produces the blocks of ranks 1 .. n-1 and leaves `pos_atual` at the start of rank 0's block |
| BlockPartition.Distribute | enade_ficticio.c:166-177 | Every rank receives its slice of the base (with the corrected packing) |
| BlockPartition.ReduceIsOnePass | enade_ficticio.c:189-196 | Adding the ranks' analyses equals one analysis of all their blocks concatenated |
| BlockPartition.AnalyzeAllSwap | enade_ficticio.c:189-196 | The analysis of two blocks does not depend on which comes first |
| BlockPartition.PartitionReduction | enade_ficticio.c:189-196 | If the blocks cover the base (rank 0's last), the reduced result is the analysis of the whole base |
| BlockPartition.FlattenCons | enade_ficticio.c:189-196 | Concatenating blocks: the first block, then the rest |
| BlockPartition.AnalyzeAndReduce | enade_ficticio.c:189-196 | Every rank's analysis loop followed by MPI_SUM computes `ReduceBlocks` |
| BlockPartition.Run | enade_ficticio.c:113-196 | The whole program, with the corrected packing (see ## Findings): for any number of ranks, the global result is the analysis of every unified student, once each. Its student count is the size of the base, and the nesting holds |
| GroupCounter.Tokens | totalAlunos.c:42-55 | Definition, no contract: the tokens successive `strtok(.., ";")` calls return. Its properties are stated by TokensShape, TokensSplit and TokensOfJoin |
| GroupCounter.TokenEnd | totalAlunos.c:42-55 | A token runs up to the first `;` or the end, and is empty only at a `;` or the end |
| GroupCounter.TokensShape | totalAlunos.c:42-55 | Every `strtok` token is non-empty and holds no `;` |
| GroupCounter.TokensOfField | totalAlunos.c:42 | A field without `;` is one token |
| GroupCounter.TokensSplit | totalAlunos.c:42-55 | A `;` splits the tokens: those left of it, then those right of it |
| GroupCounter.TokenEndUnique | totalAlunos.c:42-55 | The token end is the only position with no `;` before it and a `;` (or the end) at it |
| GroupCounter.TokensOfJoin | totalAlunos.c:42-57 | Round trip: a line joined from non-empty fields without `;` splits back into exactly those fields |
| GroupCounter.IsTarget | totalAlunos.c:45-51 | Definition, no contract: the line has a sixth token, and it is exactly "72". Its meaning on field lists is stated by IsTargetOfFields |
| GroupCounter.IsTargetOfFields | totalAlunos.c:45-51 | For such a line, the match holds iff it has at least six fields and the sixth is exactly "72" |
| GroupCounter.EmptyFieldSkipped | totalAlunos.c:42-55 | `;;` yields no empty token: the fields after it shift one column left |
| GroupCounter.TrailingNewlineDefeatsMatch | totalAlunos.c:48 | A line whose sixth and last field is "72" followed by the newline `fgets` keeps does not match |
| GroupCounter.ShortLineNeverMatches | totalAlunos.c:45-57 | A line with fewer than six fields never matches |
| GroupCounter.SkipDelimiters | totalAlunos.c:42-55 | Skipping leading `;` leaves the token sequence as it is |
| GroupCounter.FindTokenEnd | totalAlunos.c:42-55 | The scan for the end of a token stops at `TokenEnd` |
| GroupCounter.NextToken | totalAlunos.c:42-55 | One `strtok` call returns null exactly when no token is left, and otherwise the next token, leaving the rest of the tokens after it |
| GroupCounter.TokenAt | totalAlunos.c:42-55 | The text at the scan position starts with the token found, and the rest follows past its `;` |
| GroupCounter.ScanLine | totalAlunos.c:37-57 | The inner loop counts a line exactly when its sixth token is "72" |
| GroupCounter.CountGroup | totalAlunos.c:18-58 | The program reports an open failure, an empty file, or the count of matching data lines together with `numero_linha` |
| GroupCounter.CountMatchesBound | totalAlunos.c:35-58 | At most one count per data line |
| GroupCounter.Report | totalAlunos.c:18-58 | Definition, no contract: the program's outcome, which is an open failure, an empty file, or the count over the lines after the header together with the line count. Its bounds are stated by CountedBounds |
| GroupCounter.CountedBounds | totalAlunos.c:27-36 | `numero_linha` is the header plus the data lines, `contador_72 <= numero_linha - 1`, and the header never changes the count |
| GroupCounter.CountMatchesAppend | totalAlunos.c:35-58 | The count over two runs of lines is the sum of the counts |

## Left out

- MPI itself is not modelled: `MPI_Init`, `MPI_Bcast`, `MPI_Barrier`, `MPI_Send`/`MPI_Recv`, `MPI_Abort`, `MPI_Finalize`.
  - Ranks are indices `0 .. n - 1`; a reduction is a sum over a sequence.
  - The blocking and message order of these calls are outside a sequential model.
- The exactly-four-processes check of enade_ficticio.c (lines 89-96) is left out. The model proves its results for every number of ranks `n > 0`, which includes 4.
- File input is not modelled: `fopen`, `fgets`, `fclose`.
  - Files arrive as sequences of lines; a file that cannot be opened is `None`. The model does not include the messages printed on that path.
  - The line-length limits of `fgets` are not modelled: 2048 bytes in mpi_enade.c, 512 in enade_ficticio.c, 1024 in totalAlunos.c. A longer line would be read as several lines.
  - Lines holding an embedded NUL are not modelled.
- `sscanf`, `strtok_r` and `atol` are given as already-parsed tuples (mpi_enade.c:61 and 214, enade_ficticio.c:120-130). They are C library calls whose full parsing rules are outside the model.
  - `AnswerLine` holds year, course and answer character.
  - `RefRow` holds items read, course and group.
  - `ParsedLine` holds optional id, course and answer tokens.
- GroupCounter.NextToken does not model `strtok`'s writes into the line buffer or its hidden static position; an index into the line stands for both. The tokens it returns are the same.
- Printing is left out: `print_final_results`, the report `printf`s and their floating-point percentages. Timing (`MPI_Wtime`) is left out too.
- Memory management is left out: a failed `malloc`/`realloc` (the `MPI_Abort` path), `strdup`/`free`, and `malloc`/`memcpy` of rank 0's own block, which is modelled by value.
- Integer widths are unbounded: the `long long`, `long` and `int` counters and sizes never overflow in the model.
- `eh_curso_tads` is modelled (StudentAnalysis.IsTadsCourse) but nothing calls it.
  - The source comments out the call (enade_ficticio.c:128-129) and omits building the list (lines 104-106), so unification does not filter by course.
  - The trim of `str_curso` at line 127 has no effect on anything stored.
- StudentAnalysis.AnalyzeStudent is the new value of `*resultados`, not an in-place update through `resultados`. The analysis loop (StudentAnalysis.AnalyzeBlock) threads that value.
- MpiTally.ProcessDataFile takes `*local_results` as its argument `acc` and returns the updated value, not an in-place update through `local_results`. MpiTally.RunRank threads that value from file to file. Nothing else refers to main's `local_results`, so passing it by value loses no behaviour.
- Unification.Unify keeps `base_dados_unificada` as a sequence. Growing it by one record with `realloc` is modelled as appending one record.
- Unification.StoredAnswer does not model a two-character answer. `strncpy(campo, resposta, 2)` then leaves the field without a terminator, and a later `strlen` reads into the next field. The model keeps the two characters as the field's value.
  - This changes none of the comparisons `analisar_dados_aluno` makes. `strcmp` with a one-letter literal sees a difference at the second character either way.
  - `strlen(...) > 0` holds either way.

## Findings

| source | as written | input that shows it | evidently intended | confidence | as-written member | corrected member |
|---|---|---|---|---|---|---|
| enade_ficticio.c:172-177 | Each block is sent (and rank 0's is copied) as `tamanho * sizeof(RespostasAluno)` bytes starting at `&base_dados_unificada[pos_atual].respostas`. But the records are `DadosAlunoUnificado` structs 24 bytes apart (an 8-byte id, 14 answer bytes, 2 bytes of padding on LP64), so the bytes after the first 14 are not the next students' answers | Any block of two or more students. Byte 14 of the buffer is the padding of record `pos_atual`, not student 2's affirmative-action answer. Bytes 16-21 are the id of record `pos_atual + 1` | Each rank receives the answers of records `pos_atual .. pos_atual + tamanho - 1`, packed one `RespostasAluno` after another | high (not executed) | RecordLayout.SentMatchesOnlyFirstStudent, RecordLayout.SecondStudentMisread | RecordLayout.PackedIsIntended, RecordLayout.PackBlock (used by BlockPartition.Distribute) |
