/**
  The unification phase of enade_ficticio.c (rank 0): the seven question files
  are read one after the other, and every well-formed data line either finds,
  by student id, the record of a student already seen, or appends a new record
  with empty answers; the line's trimmed answer is then written into the one
  field of that record that belongs to the file's question.

  A line arrives already split by `strtok_r` and read by `atol`: each of the
  three tokens the code tests is `None` when `strtok_r` returned
  `NULL`.  A file that `fopen` cannot open is `None` and is skipped, as the
  `continue` does.
 */
module Unification {
  import opened Wrappers
  import opened StudentAnalysis
  import Sanitizer

  /** `NUM_ARQUIVOS_QUESTOES`: arq21, arq5, arq24, arq25, arq27, arq28, arq29, in `IndiceQuestao` order. */
  const QUESTION_FILES: nat := 7

  /** `DadosAlunoUnificado`. */
  datatype Record = Record(id: int, answers: Answers)

  /** One line after `strtok_r`: the id (as `atol` reads it), the course token and the answer token. */
  datatype ParsedLine = ParsedLine(id: Option<int>, course: Option<string>, answer: Option<string>)

  /** The field of `RespostasAluno` that question file `q` fills (`IndiceQuestao`). */
  function FieldOf(a: Answers, q: nat): string
    requires q < QUESTION_FILES
  {
    if q == 0 then a.affirmativeAction
    else if q == 1 then a.sex
    else if q == 2 then a.highSchoolType
    else if q == 3 then a.incentive
    else if q == 4 then a.familyEducation
    else if q == 5 then a.books
    else a.studyHours
  }

  /** The `switch (i)` that picks `campo_alvo`, followed by the write into it. */
  function SetField(a: Answers, q: nat, v: string): (b: Answers)
    requires q < QUESTION_FILES
    ensures FieldOf(b, q) == v
    ensures forall p :: 0 <= p < QUESTION_FILES && p != q ==> FieldOf(b, p) == FieldOf(a, p)
  {
    if q == 0 then a.(affirmativeAction := v)
    else if q == 1 then a.(sex := v)
    else if q == 2 then a.(highSchoolType := v)
    else if q == 3 then a.(incentive := v)
    else if q == 4 then a.(familyEducation := v)
    else if q == 5 then a.(books := v)
    else a.(studyHours := v)
  }

  /** Writing a field twice leaves only the second value. */
  lemma SetFieldTwice(a: Answers, q: nat, v: string, w: string)
    requires q < QUESTION_FILES
    ensures SetField(SetField(a, q, v), q, w) == SetField(a, q, w)
  {
  }

  /**
    The value `limpar_aspas_e_espacos` and then `strncpy(campo_alvo, str_resposta, 2)`
    leave in a two-byte field: the trimmed answer, cut to its first two characters.
   */
  function StoredAnswer(raw: string): (v: string)
    ensures |v| <= 2 && |v| <= |Sanitizer.Trim(raw)|
    ensures v == Sanitizer.Trim(raw)[..|v|]
    ensures |Sanitizer.Trim(raw)| <= 2 ==> v == Sanitizer.Trim(raw)
  {
    var t := Sanitizer.Trim(raw);
    if |t| <= 2 then t else t[..2]
  }

  /** The tokens `if (!str_id || !str_curso || !str_resposta)` asks for are all there. */
  predicate WellFormed(line: ParsedLine) {
    line.id.Some? && line.course.Some? && line.answer.Some?
  }

  /** The index of the first record with `id`, the one the `for (j ...)` search stops at. */
  function IndexOf(base: seq<Record>, id: int): (r: Option<nat>)
    ensures r.None? <==> forall j :: 0 <= j < |base| ==> base[j].id != id
    ensures r.Some? ==> r.value < |base| && base[r.value].id == id
    ensures r.Some? ==> forall j :: 0 <= j < r.value ==> base[j].id != id
  {
    if base == [] then None
    else
      match IndexOf(base[..|base| - 1], id)
      case Some(j) => Some(j)
      case None => if base[|base| - 1].id == id then Some(|base| - 1) else None
  }

  /** What one data line of question file `q` does to the base. */
  function UnifyLine(base: seq<Record>, q: nat, line: ParsedLine): seq<Record>
    requires q < QUESTION_FILES
  {
    if !WellFormed(line) then base
    else
      var id, v := line.id.value, StoredAnswer(line.answer.value);
      match IndexOf(base, id)
      case Some(j) => base[j := Record(id, SetField(base[j].answers, q, v))]
      case None => base + [Record(id, SetField(NoAnswers(), q, v))]
  }

  /** The `while (fgets(...))` loop over the lines after the header. */
  function UnifyLines(base: seq<Record>, q: nat, lines: seq<ParsedLine>): seq<Record>
    requires q < QUESTION_FILES
  {
    if lines == [] then base
    else UnifyLine(UnifyLines(base, q, lines[..|lines| - 1]), q, lines[|lines| - 1])
  }

  /** The lines after the header; the first `fgets` consumes the header, if there is one. */
  function DataLines(lines: seq<ParsedLine>): seq<ParsedLine> {
    if lines == [] then [] else lines[1..]
  }

  /** One pass of the outer `for (i ...)`: a file that does not open leaves the base as it is. */
  function UnifyFile(base: seq<Record>, q: nat, file: Option<seq<ParsedLine>>): seq<Record>
    requires q < QUESTION_FILES
  {
    match file
    case None => base
    case Some(lines) => UnifyLines(base, q, DataLines(lines))
  }

  /** The base after the first `n` question files, starting from the empty base. */
  function UnifyFiles(files: seq<Option<seq<ParsedLine>>>, n: nat): seq<Record>
    requires n <= |files| && n <= QUESTION_FILES
  {
    if n == 0 then [] else UnifyFile(UnifyFiles(files, n - 1), n - 1, files[n - 1])
  }

  /** `base_dados_unificada` once all seven files are read. */
  function UnifyAll(files: seq<Option<seq<ParsedLine>>>): seq<Record>
    requires |files| == QUESTION_FILES
  {
    UnifyFiles(files, QUESTION_FILES)
  }

  // ---------------------------------------------------------------------------
  // The imperative loops.

  /** `for (int j = 0; j < tamanho_base_dados; j++) if (... == id_atual) { indice_encontrado = j; break; }` */
  method FindStudent(base: seq<Record>, id: int) returns (index: int)
    ensures index == -1 <==> IndexOf(base, id).None?
    ensures index != -1 ==> IndexOf(base, id) == Some(index)
  {
    index := -1;
    var j := 0;
    while j < |base|
      invariant 0 <= j <= |base|
      invariant forall k :: 0 <= k < j ==> base[k].id != id
    {
      if base[j].id == id {
        index := j;
        return;
      }
      j := j + 1;
    }
  }

  /** The body of the `while (fgets(...))` loop for one line of question file `q`. */
  method ApplyLine(base: seq<Record>, q: nat, line: ParsedLine) returns (next: seq<Record>)
    requires q < QUESTION_FILES
    ensures next == UnifyLine(base, q, line)
  {
    if line.id.None? || line.course.None? || line.answer.None? {
      return base;
    }
    var id := line.id.value;
    var v := StoredAnswer(line.answer.value);
    next := base;
    var index := FindStudent(next, id);
    if index == -1 {
      next := next + [Record(id, NoAnswers())];
      index := |next| - 1;
    }
    next := next[index := Record(id, SetField(next[index].answers, q, v))];
  }

  /** One question file: skip the header, then apply every line in order. */
  method UnifyQuestionFile(base: seq<Record>, q: nat, file: Option<seq<ParsedLine>>) returns (next: seq<Record>)
    requires q < QUESTION_FILES
    ensures next == UnifyFile(base, q, file)
  {
    if file.None? {
      return base;
    }
    var lines := DataLines(file.value);
    next := base;
    var k := 0;
    while k < |lines|
      invariant 0 <= k <= |lines|
      invariant next == UnifyLines(base, q, lines[..k])
    {
      assert lines[..k + 1][..k] == lines[..k];
      next := ApplyLine(next, q, lines[k]);
      k := k + 1;
    }
    assert lines[..k] == lines;
  }

  /** The outer `for (int i = 0; i < NUM_ARQUIVOS_QUESTOES; i++)`. */
  method Unify(files: seq<Option<seq<ParsedLine>>>) returns (base: seq<Record>)
    requires |files| == QUESTION_FILES
    ensures base == UnifyAll(files)
  {
    base := [];
    var i := 0;
    while i < QUESTION_FILES
      invariant 0 <= i <= QUESTION_FILES
      invariant base == UnifyFiles(files, i)
    {
      base := UnifyQuestionFile(base, i, files[i]);
      i := i + 1;
    }
  }

  // ---------------------------------------------------------------------------
  // What the base holds.

  /** The ids of the base are pairwise distinct. */
  predicate DistinctIds(base: seq<Record>) {
    forall i, j :: 0 <= i < j < |base| ==> base[i].id != base[j].id
  }

  /** The answers the base holds for student `x`, if it holds a record for `x`. */
  function Lookup(base: seq<Record>, x: int): (r: Option<Answers>)
    ensures r.Some? <==> exists j :: 0 <= j < |base| && base[j].id == x
  {
    match IndexOf(base, x)
    case Some(j) => Some(base[j].answers)
    case None => None
  }

  /** The answers a line writes into, for a student without a record: all empty (`memset`). */
  function Or(a: Option<Answers>): Answers {
    if a.Some? then a.value else NoAnswers()
  }

  /** A line that lacks its id, course or answer token leaves the base as it is. */
  lemma SkippedLineChangesNothing(base: seq<Record>, q: nat, line: ParsedLine)
    requires q < QUESTION_FILES && !WellFormed(line)
    ensures UnifyLine(base, q, line) == base
  {
  }

  /** The lines of a file that pass the token test, in their order. */
  function WellFormedLines(lines: seq<ParsedLine>): (r: seq<ParsedLine>)
    ensures |r| <= |lines|
    ensures forall i :: 0 <= i < |r| ==> WellFormed(r[i])
    ensures forall l :: l in r <==> l in lines && WellFormed(l)
  {
    if lines == [] then []
    else
      var last := lines[|lines| - 1];
      WellFormedLines(lines[..|lines| - 1]) + (if WellFormed(last) then [last] else [])
  }

  /**
    The skipped lines of a file play no part: the base after the whole file is
    the base after its well-formed lines alone.
   */
  lemma {:induction false} OnlyWellFormedLinesMatter(base: seq<Record>, q: nat, lines: seq<ParsedLine>)
    requires q < QUESTION_FILES
    ensures UnifyLines(base, q, lines) == UnifyLines(base, q, WellFormedLines(lines))
  {
    if lines != [] {
      var init, last := lines[..|lines| - 1], lines[|lines| - 1];
      var kept := WellFormedLines(init);
      OnlyWellFormedLinesMatter(base, q, init);
      if WellFormed(last) {
        assert (kept + [last])[..|kept|] == kept;
      } else {
        SkippedLineChangesNothing(UnifyLines(base, q, init), q, last);
        assert kept + [] == kept;
      }
    }
  }

  /**
    A well-formed line with an id the base does not hold appends exactly one
    record, for that id, whose answers are empty except the field of file `q`.
   */
  lemma NewStudentAppends(base: seq<Record>, q: nat, line: ParsedLine)
    requires q < QUESTION_FILES && WellFormed(line)
    requires forall j :: 0 <= j < |base| ==> base[j].id != line.id.value
    ensures var next := UnifyLine(base, q, line);
      && |next| == |base| + 1 && next[..|base|] == base
      && next[|base|].id == line.id.value
      && FieldOf(next[|base|].answers, q) == StoredAnswer(line.answer.value)
      && forall p :: 0 <= p < QUESTION_FILES && p != q ==> FieldOf(next[|base|].answers, p) == ""
  {
    var next := UnifyLine(base, q, line);
    assert next[..|base|] == base;
  }

  /**
    A well-formed line whose id the base holds at `j` writes the field of file
    `q` in record `j` only: the base keeps its length, every other record, the
    record's id and its other six fields.
   */
  lemma KnownStudentWritesOneField(base: seq<Record>, q: nat, line: ParsedLine, j: nat)
    requires q < QUESTION_FILES && WellFormed(line) && DistinctIds(base)
    requires j < |base| && base[j].id == line.id.value
    ensures var next := UnifyLine(base, q, line);
      && |next| == |base|
      && (forall k :: 0 <= k < |base| && k != j ==> next[k] == base[k])
      && next[j].id == base[j].id
      && FieldOf(next[j].answers, q) == StoredAnswer(line.answer.value)
      && forall p :: 0 <= p < QUESTION_FILES && p != q ==> FieldOf(next[j].answers, p) == FieldOf(base[j].answers, p)
  {
    assert IndexOf(base, line.id.value) == Some(j);
  }

  /** Distinct ids stay distinct: a new record is only appended for an id that is not there. */
  lemma UnifyLineKeepsDistinct(base: seq<Record>, q: nat, line: ParsedLine)
    requires q < QUESTION_FILES && DistinctIds(base)
    ensures DistinctIds(UnifyLine(base, q, line))
  {
  }

  lemma {:induction false} UnifyLinesKeepsDistinct(base: seq<Record>, q: nat, lines: seq<ParsedLine>)
    requires q < QUESTION_FILES && DistinctIds(base)
    ensures DistinctIds(UnifyLines(base, q, lines))
  {
    if lines != [] {
      UnifyLinesKeepsDistinct(base, q, lines[..|lines| - 1]);
      UnifyLineKeepsDistinct(UnifyLines(base, q, lines[..|lines| - 1]), q, lines[|lines| - 1]);
    }
  }

  lemma {:induction false} UnifyFilesKeepsDistinct(files: seq<Option<seq<ParsedLine>>>, n: nat)
    requires n <= |files| && n <= QUESTION_FILES
    ensures DistinctIds(UnifyFiles(files, n))
  {
    if n > 0 {
      UnifyFilesKeepsDistinct(files, n - 1);
      if files[n - 1].Some? {
        UnifyLinesKeepsDistinct(UnifyFiles(files, n - 1), n - 1, DataLines(files[n - 1].value));
      }
    }
  }

  /** Every student appears once in the unified base. */
  lemma UnifiedIdsDistinct(files: seq<Option<seq<ParsedLine>>>)
    requires |files| == QUESTION_FILES
    ensures DistinctIds(UnifyAll(files))
  {
    UnifyFilesKeepsDistinct(files, QUESTION_FILES);
  }

  /** `IndexOf` after a record is overwritten with one of the same id. */
  lemma IndexOfSameId(base: seq<Record>, j: nat, rec: Record, x: int)
    requires j < |base| && rec.id == base[j].id
    ensures IndexOf(base[j := rec], x) == IndexOf(base, x)
  {
    var next := base[j := rec];
    assert forall k :: 0 <= k < |base| ==> next[k].id == base[k].id;
  }

  /** `IndexOf` after a record is appended. */
  lemma IndexOfAppend(base: seq<Record>, rec: Record, x: int)
    ensures IndexOf(base + [rec], x) ==
      match IndexOf(base, x)
      case Some(j) => Some(j)
      case None => if rec.id == x then Some(|base|) else None
  {
    assert (base + [rec])[..|base|] == base;
  }

  /**
    Seen as a table from ids to answers, one well-formed line with id `y` sets
    field `q` of `y`'s answers (empty answers if `y` had no record) and leaves
    every other student's answers as they were.
   */
  lemma UnifyLineLookup(base: seq<Record>, q: nat, line: ParsedLine, x: int)
    requires q < QUESTION_FILES
    ensures Lookup(UnifyLine(base, q, line), x) ==
      if WellFormed(line) && line.id.value == x
      then Some(SetField(Or(Lookup(base, x)), q, StoredAnswer(line.answer.value)))
      else Lookup(base, x)
  {
    if WellFormed(line) {
      var id, v := line.id.value, StoredAnswer(line.answer.value);
      match IndexOf(base, id)
      case Some(j) =>
        IndexOfSameId(base, j, Record(id, SetField(base[j].answers, q, v)), x);
      case None =>
        IndexOfAppend(base, Record(id, SetField(NoAnswers(), q, v)), x);
    }
  }

  /** The answer the last well-formed line for student `x` among `lines` stores, if any such line exists. */
  function LastAnswer(lines: seq<ParsedLine>, x: int): Option<string> {
    if lines == [] then None
    else
      var last := lines[|lines| - 1];
      if WellFormed(last) && last.id.value == x then Some(StoredAnswer(last.answer.value))
      else LastAnswer(lines[..|lines| - 1], x)
  }

  /**
    One question file, seen as a table: a student with no well-formed line in
    the file keeps the answers they had; one with such lines gets field `q`
    set to what the last of them stores, and keeps their other fields.
   */
  lemma {:induction false} UnifyLinesLookup(base: seq<Record>, q: nat, lines: seq<ParsedLine>, x: int)
    requires q < QUESTION_FILES
    ensures Lookup(UnifyLines(base, q, lines), x) ==
      match LastAnswer(lines, x)
      case None => Lookup(base, x)
      case Some(v) => Some(SetField(Or(Lookup(base, x)), q, v))
  {
    if lines != [] {
      var init, last := lines[..|lines| - 1], lines[|lines| - 1];
      UnifyLinesLookup(base, q, init, x);
      UnifyLineLookup(UnifyLines(base, q, init), q, last, x);
      if WellFormed(last) && last.id.value == x && LastAnswer(init, x).Some? {
        SetFieldTwice(Or(Lookup(base, x)), q, LastAnswer(init, x).value, StoredAnswer(last.answer.value));
      }
    }
  }

  /** What question file `q` stores for student `x`: nothing when the file does not open. */
  function FileAnswer(file: Option<seq<ParsedLine>>, x: int): Option<string> {
    match file
    case None => None
    case Some(lines) => LastAnswer(DataLines(lines), x)
  }

  /** Some of the first `n` question files has a well-formed data line for student `x`. */
  predicate SeenIn(files: seq<Option<seq<ParsedLine>>>, n: nat, x: int)
    requires n <= |files|
  {
    exists q :: 0 <= q < n && FileAnswer(files[q], x).Some?
  }

  /**
    The dossier of student `x` after `n` files: field `q` is what file `q`
    stores for `x`, or empty.
   */
  function Dossier(files: seq<Option<seq<ParsedLine>>>, n: nat, x: int): (a: Answers)
    requires n <= |files| && n <= QUESTION_FILES
    ensures forall q :: 0 <= q < QUESTION_FILES ==>
      FieldOf(a, q) == (if q < n && FileAnswer(files[q], x).Some? then FileAnswer(files[q], x).value else "")
  {
    if n == 0 then NoAnswers()
    else
      match FileAnswer(files[n - 1], x)
      case None => Dossier(files, n - 1, x)
      case Some(v) => SetField(Dossier(files, n - 1, x), n - 1, v)
  }

  /** Answers are equal when their seven fields are. */
  lemma AnswersByFields(a: Answers, b: Answers)
    requires forall q :: 0 <= q < QUESTION_FILES ==> FieldOf(a, q) == FieldOf(b, q)
    ensures a == b
  {
    assert FieldOf(a, 0) == FieldOf(b, 0) && FieldOf(a, 1) == FieldOf(b, 1);
    assert FieldOf(a, 2) == FieldOf(b, 2) && FieldOf(a, 3) == FieldOf(b, 3);
    assert FieldOf(a, 4) == FieldOf(b, 4) && FieldOf(a, 5) == FieldOf(b, 5);
    assert FieldOf(a, 6) == FieldOf(b, 6);
  }

  /** The step of `UnifyFilesLookup` for file `n - 1`, given the claim for the first `n - 1` files. */
  lemma UnifyFilesLookupStep(files: seq<Option<seq<ParsedLine>>>, n: nat, x: int)
    requires 0 < n <= |files| && n <= QUESTION_FILES
    requires Lookup(UnifyFiles(files, n - 1), x) ==
      if SeenIn(files, n - 1, x) then Some(Dossier(files, n - 1, x)) else None
    ensures Lookup(UnifyFiles(files, n), x) ==
      if SeenIn(files, n, x) then Some(Dossier(files, n, x)) else None
  {
    SeenInStep(files, n, x);
    if FileAnswer(files[n - 1], x).None? {
      LookupStepSkips(files, n, x);
    } else {
      LookupStepStores(files, n, x);
      if !SeenIn(files, n - 1, x) {
        AnswersByFields(Dossier(files, n - 1, x), NoAnswers());
      }
      assert Or(Lookup(UnifyFiles(files, n - 1), x)) == Dossier(files, n - 1, x);
    }
  }

  /** File `n - 1` has no line for `x`: the lookup is unchanged. */
  lemma LookupStepSkips(files: seq<Option<seq<ParsedLine>>>, n: nat, x: int)
    requires 0 < n <= |files| && n <= QUESTION_FILES && FileAnswer(files[n - 1], x).None?
    ensures Lookup(UnifyFiles(files, n), x) == Lookup(UnifyFiles(files, n - 1), x)
  {
    var before := UnifyFiles(files, n - 1);
    if files[n - 1].Some? {
      UnifyLinesLookup(before, n - 1, DataLines(files[n - 1].value), x);
    }
    assert UnifyFiles(files, n) == UnifyFile(before, n - 1, files[n - 1]);
  }

  /** File `n - 1` stores `v` for `x`: the record found (or a blank one) gets field `n - 1` set to `v`. */
  lemma LookupStepStores(files: seq<Option<seq<ParsedLine>>>, n: nat, x: int)
    requires 0 < n <= |files| && n <= QUESTION_FILES && FileAnswer(files[n - 1], x).Some?
    ensures Lookup(UnifyFiles(files, n), x) ==
      Some(SetField(Or(Lookup(UnifyFiles(files, n - 1), x)), n - 1, FileAnswer(files[n - 1], x).value))
  {
    var before := UnifyFiles(files, n - 1);
    UnifyLinesLookup(before, n - 1, DataLines(files[n - 1].value), x);
    assert UnifyFiles(files, n) == UnifyFile(before, n - 1, files[n - 1]);
  }

  /** The first `n` files see student `x` when the first `n - 1` do or file `n - 1` does. */
  lemma SeenInStep(files: seq<Option<seq<ParsedLine>>>, n: nat, x: int)
    requires 0 < n <= |files|
    ensures SeenIn(files, n, x) <==> SeenIn(files, n - 1, x) || FileAnswer(files[n - 1], x).Some?
  {
    if SeenIn(files, n, x) && FileAnswer(files[n - 1], x).None? {
      var q :| 0 <= q < n && FileAnswer(files[q], x).Some?;
      assert q < n - 1;
    }
  }

  lemma {:induction false} UnifyFilesLookup(files: seq<Option<seq<ParsedLine>>>, n: nat, x: int)
    requires n <= |files| && n <= QUESTION_FILES
    ensures Lookup(UnifyFiles(files, n), x) ==
      if SeenIn(files, n, x) then Some(Dossier(files, n, x)) else None
  {
    if n > 0 {
      UnifyFilesLookup(files, n - 1, x);
      UnifyFilesLookupStep(files, n, x);
    }
  }

  /**
    The unified base holds a record for exactly the students that some question
    file has a well-formed line for, and that record's field for question `q`
    is what the last such line of file `q` stores (empty when file `q` has
    none or does not open).
   */
  lemma UnifiedDossiers(files: seq<Option<seq<ParsedLine>>>, x: int)
    requires |files| == QUESTION_FILES
    ensures Lookup(UnifyAll(files), x).Some? <==> SeenIn(files, QUESTION_FILES, x)
    ensures Lookup(UnifyAll(files), x).Some? ==>
      forall q :: 0 <= q < QUESTION_FILES ==>
        FieldOf(Lookup(UnifyAll(files), x).value, q) ==
          (if FileAnswer(files[q], x).Some? then FileAnswer(files[q], x).value else "")
  {
    UnifyFilesLookup(files, QUESTION_FILES, x);
  }
}
