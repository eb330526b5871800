/**
  How the blocks of students reach the workers in enade_ficticio.c.  Rank 0
  holds the students as an array of `DadosAlunoUnificado` (a `long` id, then
  the fourteen answer bytes of `RespostasAluno`, then padding), and each
  worker needs a contiguous array of `RespostasAluno`.

  The source sends, and rank 0 copies for itself, `tamanho * sizeof(RespostasAluno)`
  bytes starting at `&base[pos].respostas`.  Those bytes are contiguous in the
  array of records, so only the first student of a block is read from its own
  answers.  The model states both readings byte by byte: the bytes the source
  sends, and the ones it evidently means (the answers of records `pos`,
  `pos + 1`, ... placed one after another), which `PackBlock` produces and the
  partition uses.

  The layout is the one of an LP64 target: an 8-byte `long`, fourteen bytes of
  `char` answers at offset 8, and two bytes of padding that round the record
  up to the alignment of `long`.
 */
module RecordLayout {
  import opened StudentAnalysis
  import opened Unification

  /** `sizeof(long)`, where the id sits at offset 0. */
  const ID_SIZE: nat := 8
  /** `sizeof(RespostasAluno)`: seven fields of two `char`. */
  const ANSWERS_SIZE: nat := 14
  /** `offsetof(DadosAlunoUnificado, respostas)`: the answers follow the id, which needs no padding. */
  const ANSWERS_OFFSET: nat := ID_SIZE
  /** `sizeof(DadosAlunoUnificado)`: 8 + 14 rounded up to a multiple of 8. */
  const RECORD_SIZE: nat := 24

  /** Where a byte of the array of records comes from: which record, and which byte of its id, answers or padding. */
  datatype Origin =
    | IdByte(record: nat, index: nat)
    | AnswerByte(record: nat, index: nat)
    | PaddingByte(record: nat, index: nat)

  /** The byte at `offset` of `base_dados_unificada`. */
  function OriginAt(offset: nat): Origin {
    var record, k := offset / RECORD_SIZE, offset % RECORD_SIZE;
    if k < ANSWERS_OFFSET then IdByte(record, k)
    else if k < ANSWERS_OFFSET + ANSWERS_SIZE then AnswerByte(record, k - ANSWERS_OFFSET)
    else PaddingByte(record, k)
  }

  /** What a worker's block should hold at byte `j`: answer byte `j % 14` of record `pos + j / 14`. */
  function IntendedOrigin(pos: nat, j: nat): Origin {
    AnswerByte(pos + j / ANSWERS_SIZE, j % ANSWERS_SIZE)
  }

  /** Byte `j` of what lines 172 and 177 send or copy: `((char *) &base[pos].respostas)[j]`. */
  function SentOrigin(pos: nat, j: nat): Origin {
    OriginAt(RECORD_SIZE * pos + ANSWERS_OFFSET + j)
  }

  /** Byte `j` of a block packed record by record, stepping `sizeof(DadosAlunoUnificado)` per student. */
  function PackedOrigin(pos: nat, j: nat): Origin {
    OriginAt(RECORD_SIZE * (pos + j / ANSWERS_SIZE) + ANSWERS_OFFSET + j % ANSWERS_SIZE)
  }

  /**
    As written: the bytes sent match the intended ones for the first student of
    the block and for no byte after it.
   */
  lemma SentMatchesOnlyFirstStudent(pos: nat, j: nat)
    ensures SentOrigin(pos, j) == IntendedOrigin(pos, j) <==> j < ANSWERS_SIZE
  {
    if j < ANSWERS_SIZE {
      assert RECORD_SIZE * pos + ANSWERS_OFFSET + j == RECORD_SIZE * pos + (ANSWERS_OFFSET + j);
    }
  }

  /**
    As written, a block of two students: the second one's affirmative-action
    answer is read from the padding of the first record, and its sex answer
    from the id of the next record.
   */
  lemma SecondStudentMisread(pos: nat)
    ensures SentOrigin(pos, ANSWERS_SIZE) == PaddingByte(pos, 22)
    ensures SentOrigin(pos, ANSWERS_SIZE + 2) == IdByte(pos + 1, 0)
    ensures IntendedOrigin(pos, ANSWERS_SIZE) == AnswerByte(pos + 1, 0)
  {
    assert RECORD_SIZE * pos + ANSWERS_OFFSET + ANSWERS_SIZE == RECORD_SIZE * pos + 22;
    assert RECORD_SIZE * pos + ANSWERS_OFFSET + ANSWERS_SIZE + 2 == RECORD_SIZE * (pos + 1);
  }

  /** Corrected: a packed block holds, at every byte, the answer byte it is meant to hold. */
  lemma PackedIsIntended(pos: nat, j: nat)
    ensures PackedOrigin(pos, j) == IntendedOrigin(pos, j)
  {
    var record := pos + j / ANSWERS_SIZE;
    var offset := RECORD_SIZE * record + (ANSWERS_OFFSET + j % ANSWERS_SIZE);
    assert offset / RECORD_SIZE == record && offset % RECORD_SIZE == ANSWERS_OFFSET + j % ANSWERS_SIZE;
  }

  /** The answers of a run of records, in order. */
  function AnswersOf(records: seq<Record>): (r: seq<Answers>)
    ensures |r| == |records|
    ensures forall i :: 0 <= i < |records| ==> r[i] == records[i].answers
  {
    if records == [] then []
    else AnswersOf(records[..|records| - 1]) + [records[|records| - 1].answers]
  }

  /**
    The two levels of the corrected block agree: byte `j` of student `i` in the
    packed buffer is answer byte `j` of record `pos + i`, whose answers are
    entry `i` of `AnswersOf(base[pos..pos + count])`.
   */
  lemma PackedBytesAreBlockEntries(base: seq<Record>, pos: nat, count: nat, i: nat, j: nat)
    requires pos + count <= |base| && i < count && j < ANSWERS_SIZE
    ensures PackedOrigin(pos, ANSWERS_SIZE * i + j) == AnswerByte(pos + i, j)
    ensures AnswersOf(base[pos..pos + count])[i] == base[pos + i].answers
  {
    var b := ANSWERS_SIZE * i + j;
    assert b / ANSWERS_SIZE == i && b % ANSWERS_SIZE == j;
    PackedIsIntended(pos, b);
  }

  /** The answers of `base[..e]` are those of `base[..s]` followed by those of `base[s..e]`. */
  lemma AnswersOfSlices(base: seq<Record>, s: nat, e: nat)
    requires s <= e <= |base|
    ensures AnswersOf(base[..s]) + AnswersOf(base[s..e]) == AnswersOf(base[..e])
  {
    var left, mid, whole := AnswersOf(base[..s]), AnswersOf(base[s..e]), AnswersOf(base[..e]);
    assert |left + mid| == |whole|;
    forall i | 0 <= i < |whole|
      ensures (left + mid)[i] == whole[i]
    {
      if i < s {
        assert (left + mid)[i] == left[i] == base[i].answers;
      } else {
        assert (left + mid)[i] == mid[i - s] == base[i].answers;
      }
    }
  }

  /**
    Corrected send buffer: the answers of records `pos .. pos + count - 1`,
    copied one student at a time, so that student `i` of the block is record
    `pos + i`.
   */
  method PackBlock(base: seq<Record>, pos: nat, count: nat) returns (block: seq<Answers>)
    requires pos + count <= |base|
    ensures block == AnswersOf(base[pos..pos + count])
  {
    block := [];
    var i := 0;
    while i < count
      invariant 0 <= i <= count
      invariant |block| == i
      invariant forall k :: 0 <= k < i ==> block[k] == base[pos + k].answers
    {
      block := block + [base[pos + i].answers];
      i := i + 1;
    }
  }
}
