/**
  `analisar_dados_aluno` of enade_ficticio.c, the loop that every rank runs
  over its block of students, and `eh_curso_tads`.  One student's answers are
  the seven two-byte fields of `RespostasAluno`, each held here as the string
  `strcmp` sees in it.
 */
module StudentAnalysis {

  /** `RespostasAluno`: one answer per question file, in the struct's field order. */
  datatype Answers = Answers(
    affirmativeAction: string, sex: string, highSchoolType: string, incentive: string,
    familyEducation: string, books: string, studyHours: string)

  /** `memset(&respostas, 0, sizeof(RespostasAluno))`: every field the empty string. */
  function NoAnswers(): Answers {
    Answers("", "", "", "", "", "", "")
  }

  /**
    Five counters for the answers "A" to "E" of a scale question: for books
    `livros_nenhum` .. `livros_mais_de_8`, for study hours `estudo_nenhuma` ..
    `estudo_mais_de_12`.
   */
  datatype Scale = Scale(a: nat, b: nat, c: nat, d: nat, e: nat)

  /** `incentivo_pais` .. `incentivo_outros`. */
  datatype Incentives = Incentives(
    parents: nat, relatives: nat, teachers: nat, friends: nat, religious: nat, others: nat)

  /**
    `ResultadosAnaliseCompleta`: its 21 `long` counters, in the struct's order,
    with the incentive, books and study-hours runs grouped.
   */
  datatype Analysis = Analysis(
    totalStudents: nat, affirmative: nat, affirmativeWomen: nat, affirmativeWomenTechnical: nat,
    affirmativeFamilyGraduated: nat, incentives: Incentives, books: Scale, study: Scale)

  function ZeroScale(): Scale {
    Scale(0, 0, 0, 0, 0)
  }

  function ZeroIncentives(): Incentives {
    Incentives(0, 0, 0, 0, 0, 0)
  }

  /** `ResultadosAnaliseCompleta resultados_locais = {0};` */
  function Zero(): Analysis {
    Analysis(0, 0, 0, 0, 0, ZeroIncentives(), ZeroScale(), ZeroScale())
  }

  function AddScale(x: Scale, y: Scale): Scale {
    Scale(x.a + y.a, x.b + y.b, x.c + y.c, x.d + y.d, x.e + y.e)
  }

  function AddIncentives(x: Incentives, y: Incentives): Incentives {
    Incentives(x.parents + y.parents, x.relatives + y.relatives, x.teachers + y.teachers,
               x.friends + y.friends, x.religious + y.religious, x.others + y.others)
  }

  /** The `MPI_SUM` of two analyses, counter by counter. */
  function Add(x: Analysis, y: Analysis): Analysis {
    Analysis(
      x.totalStudents + y.totalStudents, x.affirmative + y.affirmative,
      x.affirmativeWomen + y.affirmativeWomen, x.affirmativeWomenTechnical + y.affirmativeWomenTechnical,
      x.affirmativeFamilyGraduated + y.affirmativeFamilyGraduated,
      AddIncentives(x.incentives, y.incentives), AddScale(x.books, y.books), AddScale(x.study, y.study))
  }

  lemma AddZero(x: Analysis)
    ensures Add(x, Zero()) == x && Add(Zero(), x) == x
  {
  }

  lemma AddCommutative(x: Analysis, y: Analysis)
    ensures Add(x, y) == Add(y, x)
  {
  }

  lemma AddAssociative(x: Analysis, y: Analysis, z: Analysis)
    ensures Add(Add(x, y), z) == Add(x, Add(y, z))
  {
  }

  /** `eh_aa`: the affirmative-action answer is non-empty and neither "A" nor ".". */
  predicate IsAffirmative(s: Answers) {
    s.affirmativeAction != "A" && s.affirmativeAction != "." && |s.affirmativeAction| > 0
  }

  /** The family-education test, the same shape as `eh_aa`. */
  predicate HasGraduatedFamily(s: Answers) {
    s.familyEducation != "A" && s.familyEducation != "." && |s.familyEducation| > 0
  }

  /** `eh_mulher`. */
  predicate IsWoman(s: Answers) {
    s.sex == "F"
  }

  /** The answers the books and study-hours chains act on. */
  predicate IsScaleAnswer(x: string) {
    x == "A" || x == "B" || x == "C" || x == "D" || x == "E"
  }

  /** The books chain and the study-hours chain: `strcmp` against "A" to "E", first match counted. */
  function CountScale(v: Scale, x: string): Scale {
    if x == "A" then v.(a := v.a + 1)
    else if x == "B" then v.(b := v.b + 1)
    else if x == "C" then v.(c := v.c + 1)
    else if x == "D" then v.(d := v.d + 1)
    else if x == "E" then v.(e := v.e + 1)
    else v
  }

  /** The incentive chain of an affirmative-action woman: B, C, D, F, E, G in the source's order. */
  function CountIncentive(v: Incentives, x: string): Incentives {
    if x == "B" then v.(parents := v.parents + 1)
    else if x == "C" then v.(relatives := v.relatives + 1)
    else if x == "D" then v.(teachers := v.teachers + 1)
    else if x == "F" then v.(friends := v.friends + 1)
    else if x == "E" then v.(religious := v.religious + 1)
    else if x == "G" then v.(others := v.others + 1)
    else v
  }

  /** The block under `if (eh_mulher)`. */
  function CountWoman(r: Analysis, s: Answers): Analysis {
    r.(affirmativeWomen := r.affirmativeWomen + 1,
       affirmativeWomenTechnical := r.affirmativeWomenTechnical + (if s.highSchoolType == "B" then 1 else 0),
       incentives := CountIncentive(r.incentives, s.incentive))
  }

  /** The block under `if (eh_aa)`. */
  function CountAffirmative(r: Analysis, s: Answers): Analysis {
    var r1 := r.(affirmative := r.affirmative + 1,
                 affirmativeFamilyGraduated := r.affirmativeFamilyGraduated + (if HasGraduatedFamily(s) then 1 else 0));
    if IsWoman(s) then CountWoman(r1, s) else r1
  }

  /** `analisar_dados_aluno(&respostas, &resultados)`: the new value of `*resultados`. */
  function AnalyzeStudent(r: Analysis, s: Answers): Analysis {
    var r1 := r.(totalStudents := r.totalStudents + 1,
                 books := CountScale(r.books, s.books), study := CountScale(r.study, s.studyHours));
    if IsAffirmative(s) then CountAffirmative(r1, s) else r1
  }

  function ScaleTotal(v: Scale): nat {
    v.a + v.b + v.c + v.d + v.e
  }

  function IncentiveTotal(v: Incentives): nat {
    v.parents + v.relatives + v.teachers + v.friends + v.religious + v.others
  }

  /** Every counter of the scale stays or grows. */
  predicate ScaleGrows(v: Scale, v': Scale) {
    v'.a >= v.a && v'.b >= v.b && v'.c >= v.c && v'.d >= v.d && v'.e >= v.e
  }

  /** One scale chain: exactly one counter goes up by one for "A" to "E", none otherwise. */
  lemma CountScaleBumpsOne(v: Scale, x: string)
    ensures ScaleGrows(v, CountScale(v, x))
    ensures ScaleTotal(CountScale(v, x)) == ScaleTotal(v) + (if IsScaleAnswer(x) then 1 else 0)
  {
  }

  /** The answers the incentive chain acts on; "A" (no one) and any other answer move nothing. */
  predicate IsIncentiveAnswer(x: string) {
    x == "B" || x == "C" || x == "D" || x == "E" || x == "F" || x == "G"
  }

  /** Every incentive counter stays or grows. */
  predicate IncentivesGrow(v: Incentives, v': Incentives) {
    && v'.parents >= v.parents && v'.relatives >= v.relatives && v'.teachers >= v.teachers
    && v'.friends >= v.friends && v'.religious >= v.religious && v'.others >= v.others
  }

  /** The incentive chain: exactly one counter goes up by one for "B" to "G", none otherwise. */
  lemma CountIncentiveBumpsOne(v: Incentives, x: string)
    ensures IncentivesGrow(v, CountIncentive(v, x))
    ensures IncentiveTotal(CountIncentive(v, x)) == IncentiveTotal(v) + (if IsIncentiveAnswer(x) then 1 else 0)
  {
  }

  /** Adding a scale is adding its total. */
  lemma AddScaleTotal(x: Scale, y: Scale)
    ensures ScaleTotal(AddScale(x, y)) == ScaleTotal(x) + ScaleTotal(y)
  {
  }

  /** The counters fed only under the affirmative-action gate. */
  predicate SameGatedCounters(r: Analysis, r': Analysis) {
    && r'.affirmative == r.affirmative && r'.affirmativeWomen == r.affirmativeWomen
    && r'.affirmativeWomenTechnical == r.affirmativeWomenTechnical
    && r'.affirmativeFamilyGraduated == r.affirmativeFamilyGraduated
    && r'.incentives == r.incentives
  }

  /**
    One call counts the student once, and the books and study-hours chains move
    one counter each by one when the answer is "A" to "E", none otherwise (the
    counters only grow, and their total by exactly that one).
   */
  lemma AnalyzeCountsStudent(r: Analysis, s: Answers)
    ensures AnalyzeStudent(r, s).totalStudents == r.totalStudents + 1
    ensures ScaleGrows(r.books, AnalyzeStudent(r, s).books) && ScaleGrows(r.study, AnalyzeStudent(r, s).study)
    ensures ScaleTotal(AnalyzeStudent(r, s).books) == ScaleTotal(r.books) + (if IsScaleAnswer(s.books) then 1 else 0)
    ensures ScaleTotal(AnalyzeStudent(r, s).study) == ScaleTotal(r.study) + (if IsScaleAnswer(s.studyHours) then 1 else 0)
  {
    CountScaleBumpsOne(r.books, s.books);
    CountScaleBumpsOne(r.study, s.studyHours);
  }

  /**
    The affirmative-action gate: `alunos_aa` goes up exactly when `eh_aa` holds,
    and when it does not, no counter under the gate moves.
   */
  lemma AnalyzeGate(r: Analysis, s: Answers)
    ensures AnalyzeStudent(r, s).affirmative == r.affirmative + (if IsAffirmative(s) then 1 else 0)
    ensures !IsAffirmative(s) <==> SameGatedCounters(r, AnalyzeStudent(r, s))
  {
  }

  /**
    Women are counted among affirmative-action students only: `mulheres_aa` goes
    up exactly when the student is both, and only then can an incentive or the
    technical-school counter move.
   */
  lemma AnalyzeWomen(r: Analysis, s: Answers)
    ensures AnalyzeStudent(r, s).affirmativeWomen ==
      r.affirmativeWomen + (if IsAffirmative(s) && IsWoman(s) then 1 else 0)
    ensures !(IsAffirmative(s) && IsWoman(s)) ==>
      AnalyzeStudent(r, s).incentives == r.incentives &&
      AnalyzeStudent(r, s).affirmativeWomenTechnical == r.affirmativeWomenTechnical
    ensures IncentivesGrow(r.incentives, AnalyzeStudent(r, s).incentives)
    ensures IncentiveTotal(AnalyzeStudent(r, s).incentives) ==
      IncentiveTotal(r.incentives) + (if IsAffirmative(s) && IsWoman(s) && IsIncentiveAnswer(s.incentive) then 1 else 0)
    ensures AnalyzeStudent(r, s).affirmativeWomenTechnical ==
      r.affirmativeWomenTechnical + (if IsAffirmative(s) && IsWoman(s) && s.highSchoolType == "B" then 1 else 0)
  {
    CountIncentiveBumpsOne(r.incentives, s.incentive);
  }

  /**
    The nesting of the counters: affirmative-action students are students,
    women and students with graduated family among them are affirmative-action
    students, technical-school women and the incentive answers are among those
    women, and the books and study totals never pass the number of students.
   */
  predicate Nested(r: Analysis) {
    && r.affirmative <= r.totalStudents
    && r.affirmativeWomen <= r.affirmative
    && r.affirmativeFamilyGraduated <= r.affirmative
    && r.affirmativeWomenTechnical <= r.affirmativeWomen
    && IncentiveTotal(r.incentives) <= r.affirmativeWomen
    && ScaleTotal(r.books) <= r.totalStudents
    && ScaleTotal(r.study) <= r.totalStudents
  }

  lemma AnalyzeKeepsNested(r: Analysis, s: Answers)
    requires Nested(r)
    ensures Nested(AnalyzeStudent(r, s))
  {
    AnalyzeCountsStudent(r, s);
    AnalyzeWomen(r, s);
    CountIncentiveBumpsOne(r.incentives, s.incentive);
  }

  /** Analysing a student into `r` adds to `r` what that student alone counts. */
  lemma AnalyzeIsTranslation(r: Analysis, s: Answers)
    ensures AnalyzeStudent(r, s) == Add(r, AnalyzeStudent(Zero(), s))
  {
  }

  /** `resultados_locais` after the analysis loop over `block`, starting from `r`. */
  function AnalyzeAll(r: Analysis, block: seq<Answers>): Analysis {
    if block == [] then r
    else AnalyzeStudent(AnalyzeAll(r, block[..|block| - 1]), block[|block| - 1])
  }

  /** `for (i = 0; i < tamanho_meu_bloco; i++) analisar_dados_aluno(&meu_bloco_trabalho[i], &resultados_locais);` */
  method AnalyzeBlock(block: seq<Answers>) returns (r: Analysis)
    ensures r == AnalyzeAll(Zero(), block)
  {
    r := Zero();
    var i := 0;
    while i < |block|
      invariant 0 <= i <= |block|
      invariant r == AnalyzeAll(Zero(), block[..i])
    {
      assert block[..i + 1][..i] == block[..i];
      r := AnalyzeStudent(r, block[i]);
      i := i + 1;
    }
    assert block[..i] == block;
  }

  /** The number of affirmative-action students in `block`. */
  function AffirmativeCount(block: seq<Answers>): nat {
    if block == [] then 0
    else AffirmativeCount(block[..|block| - 1]) + (if IsAffirmative(block[|block| - 1]) then 1 else 0)
  }

  /**
    Over a whole block: every student is counted once, `alunos_aa` is the number
    of affirmative-action students, and the counters stay nested.
   */
  lemma {:induction false} AnalyzeAllCounts(block: seq<Answers>)
    ensures AnalyzeAll(Zero(), block).totalStudents == |block|
    ensures AnalyzeAll(Zero(), block).affirmative == AffirmativeCount(block)
    ensures Nested(AnalyzeAll(Zero(), block))
  {
    if block != [] {
      var init := block[..|block| - 1];
      AnalyzeAllCounts(init);
      AnalyzeCountsStudent(AnalyzeAll(Zero(), init), block[|block| - 1]);
      AnalyzeGate(AnalyzeAll(Zero(), init), block[|block| - 1]);
      AnalyzeKeepsNested(AnalyzeAll(Zero(), init), block[|block| - 1]);
    }
  }

  /** Analysing `r` then `block` is adding to `r` what the block alone counts. */
  lemma {:induction false} AnalyzeAllTranslation(r: Analysis, block: seq<Answers>)
    ensures AnalyzeAll(r, block) == Add(r, AnalyzeAll(Zero(), block))
  {
    if block == [] {
      AddZero(r);
    } else {
      var init, last := block[..|block| - 1], block[|block| - 1];
      var t := AnalyzeAll(Zero(), init);
      AnalyzeAllTranslation(r, init);
      AnalyzeIsTranslation(Add(r, t), last);
      AnalyzeIsTranslation(t, last);
      AddAssociative(r, t, AnalyzeStudent(Zero(), last));
    }
  }

  /** Splitting the students into two blocks and summing the two analyses loses and adds nothing. */
  lemma {:induction false} AnalyzeAllSplit(x: seq<Answers>, y: seq<Answers>)
    ensures AnalyzeAll(Zero(), x + y) == Add(AnalyzeAll(Zero(), x), AnalyzeAll(Zero(), y))
  {
    if y == [] {
      assert x + y == x;
      AddZero(AnalyzeAll(Zero(), x));
    } else {
      var init, last := y[..|y| - 1], y[|y| - 1];
      assert (x + y)[..|x + y| - 1] == x + init;
      AnalyzeAllSplit(x, init);
      var a, b := AnalyzeAll(Zero(), x), AnalyzeAll(Zero(), init);
      AnalyzeIsTranslation(Add(a, b), last);
      AnalyzeIsTranslation(b, last);
      AddAssociative(a, b, AnalyzeStudent(Zero(), last));
    }
  }

  /** `eh_curso_tads(codigo_curso, lista_tads, contagem)`: a linear `strcmp` search of the first `count` codes. */
  method IsTadsCourse(code: string, list: seq<string>, count: nat) returns (found: bool)
    requires count <= |list|
    ensures found <==> exists i :: 0 <= i < count && list[i] == code
  {
    var i := 0;
    while i < count
      invariant 0 <= i <= count
      invariant forall j :: 0 <= j < i ==> list[j] != code
    {
      if list[i] == code {
        return true;
      }
      i := i + 1;
    }
    return false;
  }
}
