/**
  The `Results` accumulator of mpi_enade.c and the per-file answer switch of
  `process_data_file`.  Each rank owns one `Results`; `FieldsOf` is the view
  MPI_Reduce takes of the struct: 27 consecutive `long long` counters, in
  declaration order.
 */
module MpiResults {

  /** One counter per field of the C struct, in the struct's order. */
  datatype Results = Results(
    totalStudents: nat, femaleStudents: nat, techHsStudents: nat, affirmativeActionTotal: nat,
    incentiveParents: nat, incentiveFamily: nat, incentiveTeachers: nat, incentiveFriends: nat,
    incentiveReligious: nat, incentiveOthers: nat, incentiveNone: nat, incentiveNull: nat,
    familyGraduatedYes: nat, familyGraduatedNo: nat, familyGraduatedNull: nat,
    booksNone: nat, books1To2: nat, books3To5: nat, books6To8: nat, booksMoreThan8: nat, booksNull: nat,
    studyHoursNone: nat, studyHours1To3: nat, studyHours4To7: nat, studyHours8To12: nat,
    studyHoursMoreThan12: nat, studyHoursNull: nat)

  /** `sizeof(Results) / sizeof(long long)`. */
  const FIELD_COUNT: nat := 27

  /** `Results local_results = {0};` */
  function Zero(): Results {
    Results(0, 0, 0, 0, 0, 0, 0, 0, 0, 0, 0, 0, 0, 0, 0, 0, 0, 0, 0, 0, 0, 0, 0, 0, 0, 0, 0)
  }

  /** The struct as the array of counters that MPI_Reduce sums element by element. */
  function FieldsOf(r: Results): (s: seq<nat>)
    ensures |s| == FIELD_COUNT
  {
    [r.totalStudents, r.femaleStudents, r.techHsStudents, r.affirmativeActionTotal,
     r.incentiveParents, r.incentiveFamily, r.incentiveTeachers, r.incentiveFriends,
     r.incentiveReligious, r.incentiveOthers, r.incentiveNone, r.incentiveNull,
     r.familyGraduatedYes, r.familyGraduatedNo, r.familyGraduatedNull,
     r.booksNone, r.books1To2, r.books3To5, r.books6To8, r.booksMoreThan8, r.booksNull,
     r.studyHoursNone, r.studyHours1To3, r.studyHours4To7, r.studyHours8To12,
     r.studyHoursMoreThan12, r.studyHoursNull]
  }

  /** The array view loses nothing: two accumulators with the same counters are equal. */
  lemma FieldsOfInjective(a: Results, b: Results)
    requires FieldsOf(a) == FieldsOf(b)
    ensures a == b
  {
    assert forall k :: 0 <= k < FIELD_COUNT ==> FieldsOf(a)[k] == FieldsOf(b)[k];
  }

  /** The MPI_SUM of two accumulators: every counter is the sum of the two counters. */
  function Add(a: Results, b: Results): Results {
    Results(
      a.totalStudents + b.totalStudents, a.femaleStudents + b.femaleStudents,
      a.techHsStudents + b.techHsStudents, a.affirmativeActionTotal + b.affirmativeActionTotal,
      a.incentiveParents + b.incentiveParents, a.incentiveFamily + b.incentiveFamily,
      a.incentiveTeachers + b.incentiveTeachers, a.incentiveFriends + b.incentiveFriends,
      a.incentiveReligious + b.incentiveReligious, a.incentiveOthers + b.incentiveOthers,
      a.incentiveNone + b.incentiveNone, a.incentiveNull + b.incentiveNull,
      a.familyGraduatedYes + b.familyGraduatedYes, a.familyGraduatedNo + b.familyGraduatedNo,
      a.familyGraduatedNull + b.familyGraduatedNull,
      a.booksNone + b.booksNone, a.books1To2 + b.books1To2, a.books3To5 + b.books3To5,
      a.books6To8 + b.books6To8, a.booksMoreThan8 + b.booksMoreThan8, a.booksNull + b.booksNull,
      a.studyHoursNone + b.studyHoursNone, a.studyHours1To3 + b.studyHours1To3,
      a.studyHours4To7 + b.studyHours4To7, a.studyHours8To12 + b.studyHours8To12,
      a.studyHoursMoreThan12 + b.studyHoursMoreThan12, a.studyHoursNull + b.studyHoursNull)
  }

  /** `Add` is MPI_SUM over the array view: counter `k` of the sum is the sum of the counters `k`. */
  lemma AddFields(a: Results, b: Results)
    ensures forall k :: 0 <= k < FIELD_COUNT ==> FieldsOf(Add(a, b))[k] == FieldsOf(a)[k] + FieldsOf(b)[k]
  {
  }

  lemma AddZero(a: Results)
    ensures Add(a, Zero()) == a && Add(Zero(), a) == a
  {
  }

  lemma AddCommutative(a: Results, b: Results)
    ensures Add(a, b) == Add(b, a)
  {
  }

  lemma AddAssociative(a: Results, b: Results, c: Results)
    ensures Add(Add(a, b), c) == Add(a, Add(b, c))
  {
  }

  /** The seven answer files main hands to `process_data_file`, told apart there by `strcmp` on the name. */
  datatype DataFile = Arq5 | Arq21 | Arq24 | Arq25 | Arq27 | Arq28 | Arq29

  /**
    The counters (as indices into `FieldsOf`) that a line of file `f` may change:
    `lo <= k < hi`.
   */
  function Lo(f: DataFile): nat {
    match f
    case Arq5 => 0
    case Arq24 => 2
    case Arq21 => 3
    case Arq25 => 4
    case Arq27 => 12
    case Arq28 => 15
    case Arq29 => 21
  }

  function Hi(f: DataFile): (hi: nat)
    ensures Lo(f) < hi <= FIELD_COUNT
  {
    match f
    case Arq5 => 2
    case Arq24 => 3
    case Arq21 => 4
    case Arq25 => 12
    case Arq27 => 15
    case Arq28 => 21
    case Arq29 => 27
  }

  /** The four files answered through a `switch` with a `_null` default. */
  predicate IsSwitchFile(f: DataFile) {
    f == Arq25 || f == Arq27 || f == Arq28 || f == Arq29
  }

  /** The arq21 test: any first answer character other than 'A', ' ' and '.' is affirmative action. */
  predicate IsAffirmativeAnswer(c: char) {
    c != 'A' && c != ' ' && c != '.'
  }

  /** What one member line of file `f`, whose answer character is `c`, does to the accumulator. */
  function Count(r: Results, f: DataFile, c: char): Results {
    match f
    case Arq5 =>
      r.(totalStudents := r.totalStudents + 1,
         femaleStudents := if c == 'F' then r.femaleStudents + 1 else r.femaleStudents)
    case Arq24 =>
      if c == 'B' then r.(techHsStudents := r.techHsStudents + 1) else r
    case Arq21 =>
      if IsAffirmativeAnswer(c) then r.(affirmativeActionTotal := r.affirmativeActionTotal + 1) else r
    case Arq25 => CountIncentive(r, c)
    case Arq27 => CountFamilyGraduated(r, c)
    case Arq28 => CountBooks(r, c)
    case Arq29 => CountStudyHours(r, c)
  }

  /** The arq25 switch: who encouraged the student. */
  function CountIncentive(r: Results, c: char): Results {
    match c
    case 'A' => r.(incentiveNone := r.incentiveNone + 1)
    case 'B' => r.(incentiveParents := r.incentiveParents + 1)
    case 'C' => r.(incentiveFamily := r.incentiveFamily + 1)
    case 'D' => r.(incentiveTeachers := r.incentiveTeachers + 1)
    case 'E' => r.(incentiveReligious := r.incentiveReligious + 1)
    case 'F' => r.(incentiveFriends := r.incentiveFriends + 1)
    case 'G' => r.(incentiveOthers := r.incentiveOthers + 1)
    case _ => r.(incentiveNull := r.incentiveNull + 1)
  }

  /** The arq27 switch: a family member with a degree, yes or no. */
  function CountFamilyGraduated(r: Results, c: char): Results {
    match c
    case 'A' => r.(familyGraduatedYes := r.familyGraduatedYes + 1)
    case 'B' => r.(familyGraduatedNo := r.familyGraduatedNo + 1)
    case _ => r.(familyGraduatedNull := r.familyGraduatedNull + 1)
  }

  /** The arq28 switch: books read in the year. */
  function CountBooks(r: Results, c: char): Results {
    match c
    case 'A' => r.(booksNone := r.booksNone + 1)
    case 'B' => r.(books1To2 := r.books1To2 + 1)
    case 'C' => r.(books3To5 := r.books3To5 + 1)
    case 'D' => r.(books6To8 := r.books6To8 + 1)
    case 'E' => r.(booksMoreThan8 := r.booksMoreThan8 + 1)
    case _ => r.(booksNull := r.booksNull + 1)
  }

  /** The arq29 switch: weekly study hours. */
  function CountStudyHours(r: Results, c: char): Results {
    match c
    case 'A' => r.(studyHoursNone := r.studyHoursNone + 1)
    case 'B' => r.(studyHours1To3 := r.studyHours1To3 + 1)
    case 'C' => r.(studyHours4To7 := r.studyHours4To7 + 1)
    case 'D' => r.(studyHours8To12 := r.studyHours8To12 + 1)
    case 'E' => r.(studyHoursMoreThan12 := r.studyHoursMoreThan12 + 1)
    case _ => r.(studyHoursNull := r.studyHoursNull + 1)
  }

  /** 1 when `i == k`, else 0. */
  function Indicator(i: nat, k: nat): nat {
    if i == k then 1 else 0
  }

  /** The accumulator whose only non-zero counter is counter `k` (an index into `FieldsOf`), at 1. */
  function Unit(k: nat): Results {
    Results(
      Indicator(0, k), Indicator(1, k), Indicator(2, k), Indicator(3, k), Indicator(4, k), Indicator(5, k),
      Indicator(6, k), Indicator(7, k), Indicator(8, k), Indicator(9, k), Indicator(10, k), Indicator(11, k),
      Indicator(12, k), Indicator(13, k), Indicator(14, k), Indicator(15, k), Indicator(16, k), Indicator(17, k),
      Indicator(18, k), Indicator(19, k), Indicator(20, k), Indicator(21, k), Indicator(22, k), Indicator(23, k),
      Indicator(24, k), Indicator(25, k), Indicator(26, k))
  }

  lemma UnitFields(k: nat)
    ensures forall j :: 0 <= j < FIELD_COUNT ==> FieldsOf(Unit(k))[j] == Indicator(j, k)
  {
  }

  /** The case labels of the four switches, as the index of the counter each letter selects. */
  function SwitchCounter(f: DataFile, c: char): (k: nat)
    requires IsSwitchFile(f)
    ensures Lo(f) <= k < Hi(f)
  {
    match f
    case Arq25 =>
      (match c
       case 'A' => 10 case 'B' => 4 case 'C' => 5 case 'D' => 6
       case 'E' => 8 case 'F' => 7 case 'G' => 9 case _ => 11)
    case Arq27 => (match c case 'A' => 12 case 'B' => 13 case _ => 14)
    case Arq28 =>
      (match c case 'A' => 15 case 'B' => 16 case 'C' => 17 case 'D' => 18 case 'E' => 19 case _ => 20)
    case Arq29 =>
      (match c case 'A' => 21 case 'B' => 22 case 'C' => 23 case 'D' => 24 case 'E' => 25 case _ => 26)
  }

  /** Each switch adds one to the counter its case label names. */
  lemma SwitchIsUnit(r: Results, f: DataFile, c: char)
    requires IsSwitchFile(f)
    ensures Count(r, f, c) == Add(r, Unit(SwitchCounter(f, c)))
  {
    match f {
      case Arq25 => IncentiveIsUnit(r, c);
      case Arq27 => FamilyGraduatedIsUnit(r, c);
      case Arq28 => BooksIsUnit(r, c);
      case Arq29 => StudyHoursIsUnit(r, c);
    }
  }

  lemma IncentiveIsUnit(r: Results, c: char)
    ensures CountIncentive(r, c) == Add(r, Unit(SwitchCounter(Arq25, c)))
  {
    if c == 'A' {} else if c == 'B' {} else if c == 'C' {} else if c == 'D' {}
    else if c == 'E' {} else if c == 'F' {} else if c == 'G' {} else {}
  }

  lemma FamilyGraduatedIsUnit(r: Results, c: char)
    ensures CountFamilyGraduated(r, c) == Add(r, Unit(SwitchCounter(Arq27, c)))
  {
    if c == 'A' {} else if c == 'B' {} else {}
  }

  lemma BooksIsUnit(r: Results, c: char)
    ensures CountBooks(r, c) == Add(r, Unit(SwitchCounter(Arq28, c)))
  {
    if c == 'A' {} else if c == 'B' {} else if c == 'C' {} else if c == 'D' {} else if c == 'E' {} else {}
  }

  lemma StudyHoursIsUnit(r: Results, c: char)
    ensures CountStudyHours(r, c) == Add(r, Unit(SwitchCounter(Arq29, c)))
  {
    if c == 'A' {} else if c == 'B' {} else if c == 'C' {} else if c == 'D' {} else if c == 'E' {} else {}
  }

  /** `r'` is `r` with counter `k` (an index into `FieldsOf`) one higher and every other counter the same. */
  ghost predicate BumpedOnce(r: Results, r': Results, k: nat) {
    forall j :: 0 <= j < FIELD_COUNT ==> FieldsOf(r')[j] == FieldsOf(r)[j] + Indicator(j, k)
  }

  /**
    In arq25, arq27, arq28 and arq29 every member line increments exactly one
    counter of its question (the `_null` one for any unlisted letter) and no other field.
   */
  lemma SwitchBumpsExactlyOne(r: Results, f: DataFile, c: char)
    requires IsSwitchFile(f)
    ensures exists k :: Lo(f) <= k < Hi(f) && BumpedOnce(r, Count(r, f, c), k)
  {
    var k := SwitchCounter(f, c);
    SwitchIsUnit(r, f, c);
    AddFields(r, Unit(k));
    UnitFields(k);
    assert BumpedOnce(r, Count(r, f, c), k);
  }

  /** A line of file `f` changes no counter outside `Lo(f) .. Hi(f)`. */
  lemma CountStaysInItsFields(r: Results, f: DataFile, c: char, k: nat)
    requires k < FIELD_COUNT && !(Lo(f) <= k < Hi(f))
    ensures FieldsOf(Count(r, f, c))[k] == FieldsOf(r)[k]
  {
    if IsSwitchFile(f) {
      SwitchStaysInItsFields(r, f, c, k);
    } else {
      GatedStaysInItsFields(r, f, c, k);
    }
  }

  lemma SwitchStaysInItsFields(r: Results, f: DataFile, c: char, k: nat)
    requires IsSwitchFile(f) && k < FIELD_COUNT && !(Lo(f) <= k < Hi(f))
    ensures FieldsOf(Count(r, f, c))[k] == FieldsOf(r)[k]
  {
    var j := SwitchCounter(f, c);
    SwitchIsUnit(r, f, c);
    AddFields(r, Unit(j));
    UnitFields(j);
  }

  lemma GatedStaysInItsFields(r: Results, f: DataFile, c: char, k: nat)
    requires !IsSwitchFile(f) && k < FIELD_COUNT && !(Lo(f) <= k < Hi(f))
    ensures FieldsOf(Count(r, f, c))[k] == FieldsOf(r)[k]
  {
    match f {
      case Arq5 => SexStaysInItsFields(r, c, k);
      case Arq24 => TechnicalStaysInItsField(r, c, k);
      case Arq21 => AffirmativeStaysInItsField(r, c, k);
    }
  }

  lemma SexStaysInItsFields(r: Results, c: char, k: nat)
    requires 2 <= k < FIELD_COUNT
    ensures FieldsOf(Count(r, Arq5, c))[k] == FieldsOf(r)[k]
  {
  }

  lemma TechnicalStaysInItsField(r: Results, c: char, k: nat)
    requires k < FIELD_COUNT && k != 2
    ensures FieldsOf(Count(r, Arq24, c))[k] == FieldsOf(r)[k]
  {
  }

  lemma AffirmativeStaysInItsField(r: Results, c: char, k: nat)
    requires k < FIELD_COUNT && k != 3
    ensures FieldsOf(Count(r, Arq21, c))[k] == FieldsOf(r)[k]
  {
  }

  /** Counting into `r` is adding the one-line count taken from zero: the basis of the reduction. */
  lemma CountIsTranslation(r: Results, f: DataFile, c: char)
    ensures Count(r, f, c) == Add(r, Count(Zero(), f, c))
  {
    if IsSwitchFile(f) {
      SwitchIsUnit(r, f, c);
      SwitchIsUnit(Zero(), f, c);
      AddZero(Unit(SwitchCounter(f, c)));
    }
  }

  /** `female_students <= total_students` is kept by every line of every file. */
  lemma CountKeepsFemaleBound(r: Results, f: DataFile, c: char)
    requires r.femaleStudents <= r.totalStudents
    ensures Count(r, f, c).femaleStudents <= Count(r, f, c).totalStudents
  {
  }
}
