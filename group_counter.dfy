/**
  totalAlunos.c: reads the course file line by line after its header, splits
  each line with `strtok(..., ";")` and counts the lines whose sixth token is
  exactly "72" (`CO_GRUPO` of the course group).  A line is the text `fgets`
  stores, its newline included.
 */
module GroupCounter {
  import opened Wrappers

  /** `COLUNA_ALVO`. */
  const TARGET_COLUMN: nat := 6
  /** `VALOR_ALVO`. */
  const TARGET_VALUE: string := "72"
  const DELIMITER: char := ';'

  /** The end of the token that starts at the front of `s`: the first `';'`, or the end. */
  function TokenEnd(s: string): (j: nat)
    ensures j <= |s| && DELIMITER !in s[..j]
    ensures j < |s| ==> s[j] == DELIMITER
    ensures j == 0 <==> s == [] || s[0] == DELIMITER
  {
    if s == [] || s[0] == DELIMITER then 0
    else
      var j := 1 + TokenEnd(s[1..]);
      assert s[..j] == [s[0]] + s[1..][..j - 1];
      j
  }

  /**
    The tokens successive `strtok` calls return: runs of delimiters are
    skipped, so empty fields yield no token.
   */
  function Tokens(s: string): seq<string>
    decreases |s|
  {
    if s == [] then []
    else if s[0] == DELIMITER then Tokens(s[1..])
    else
      var j := TokenEnd(s);
      [s[..j]] + Tokens(s[j..])
  }

  /** The tokens are the non-empty runs of non-delimiters. */
  lemma {:induction false} TokensShape(s: string)
    ensures forall k :: 0 <= k < |Tokens(s)| ==> Tokens(s)[k] != [] && DELIMITER !in Tokens(s)[k]
    decreases |s|
  {
    if s != [] {
      if s[0] == DELIMITER {
        TokensShape(s[1..]);
      } else {
        TokensShape(s[TokenEnd(s)..]);
      }
    }
  }

  /** One field without delimiters is one token. */
  lemma TokensOfField(t: string)
    requires t != [] && DELIMITER !in t
    ensures Tokens(t) == [t]
  {
    assert TokenEnd(t) == |t|;
    assert t[0] != DELIMITER;
    assert t[..|t|] == t && t[|t|..] == [];
  }

  /** A delimiter splits the token sequence: what is left of it and what is right of it never merge. */
  lemma {:induction false} TokensSplit(a: string, b: string)
    ensures Tokens(a + [DELIMITER] + b) == Tokens(a) + Tokens(b)
    decreases |a|
  {
    var s := a + [DELIMITER] + b;
    if a == [] {
      assert s[1..] == b;
      assert Tokens(s) == Tokens(b);
    } else if a[0] == DELIMITER {
      assert s[1..] == a[1..] + [DELIMITER] + b;
      TokensSplit(a[1..], b);
      assert Tokens(s) == Tokens(s[1..]);
      assert Tokens(a) == Tokens(a[1..]);
    } else {
      var j := TokenEnd(a);
      TokenEndUnique(s, j);
      assert s[..j] == a[..j];
      assert Tokens(s) == [a[..j]] + Tokens(s[j..]);
      if j < |a| {
        assert s[j..] == a[j..] + [DELIMITER] + b;
        TokensSplit(a[j..], b);
      } else {
        assert s[j..] == [DELIMITER] + b;
        assert s[j..][1..] == b;
        assert a[j..] == [];
      }
      assert Tokens(a) == [a[..j]] + Tokens(a[j..]);
    }
  }

  /** A position with no delimiter before it and a delimiter (or the end) at it is the token end. */
  lemma TokenEndUnique(s: string, j: nat)
    requires j <= |s| && DELIMITER !in s[..j] && (j < |s| ==> s[j] == DELIMITER)
    ensures TokenEnd(s) == j
  {
  }

  /** The fields of a line, joined with `';'`. */
  function Join(fields: seq<string>): string {
    if fields == [] then []
    else if |fields| == 1 then fields[0]
    else Join(fields[..|fields| - 1]) + [DELIMITER] + fields[|fields| - 1]
  }

  /** Round trip: a line built from non-empty fields without delimiters splits back into those fields. */
  lemma {:induction false} TokensOfJoin(fields: seq<string>)
    requires forall k :: 0 <= k < |fields| ==> fields[k] != [] && DELIMITER !in fields[k]
    ensures Tokens(Join(fields)) == fields
  {
    if |fields| == 1 {
      TokensOfField(fields[0]);
      assert fields == [fields[0]];
    } else if |fields| > 1 {
      var init, last := fields[..|fields| - 1], fields[|fields| - 1];
      assert forall k :: 0 <= k < |init| ==> init[k] == fields[k];
      assert fields == init + [last];
      TokensOfJoin(init);
      assert Join(fields) == Join(init) + [DELIMITER] + last;
      TokensSplit(Join(init), last);
      TokensOfField(last);
      assert Tokens(Join(fields)) == init + [last];
    }
  }

  /** The comparison at line 48: the sixth token is exactly "72". */
  predicate IsTarget(line: string) {
    |Tokens(line)| >= TARGET_COLUMN && Tokens(line)[TARGET_COLUMN - 1] == TARGET_VALUE
  }

  /** For a line made of well-formed fields, the match looks at the sixth field, verbatim. */
  lemma IsTargetOfFields(fields: seq<string>)
    requires forall k :: 0 <= k < |fields| ==> fields[k] != [] && DELIMITER !in fields[k]
    ensures IsTarget(Join(fields)) <==> |fields| >= TARGET_COLUMN && fields[TARGET_COLUMN - 1] == TARGET_VALUE
  {
    TokensOfJoin(fields);
  }

  /** A field of a line as `strtok` returns it: not empty, and without a delimiter. */
  predicate IsField(t: string) {
    t != [] && DELIMITER !in t
  }

  /** Empty fields disappear: two delimiters in a row give no token between them. */
  lemma EmptyFieldSkipped(a: string, b: string)
    requires IsField(a) && IsField(b)
    ensures Tokens(a + [DELIMITER, DELIMITER] + b) == [a, b]
  {
    var rest := [DELIMITER] + b;
    assert a + [DELIMITER, DELIMITER] + b == a + [DELIMITER] + rest;
    TokensSplit(a, rest);
    assert rest[1..] == b;
    TokensOfField(a);
    TokensOfField(b);
  }

  /**
    The comparison is verbatim: when "72" is the last field, the newline that
    `fgets` keeps makes the sixth token "72\n", and the line is not counted.
   */
  lemma TrailingNewlineDefeatsMatch(f1: string, f2: string, f3: string, f4: string, f5: string)
    requires IsField(f1) && IsField(f2) && IsField(f3) && IsField(f4) && IsField(f5)
    ensures !IsTarget(Join([f1, f2, f3, f4, f5, "72\n"]))
  {
    IsTargetOfFields([f1, f2, f3, f4, f5, "72\n"]);
  }

  /** A line of five fields or fewer is never counted, whatever they hold. */
  lemma ShortLineNeverMatches(fields: seq<string>)
    requires |fields| < TARGET_COLUMN && forall k :: 0 <= k < |fields| ==> IsField(fields[k])
    ensures !IsTarget(Join(fields))
  {
    IsTargetOfFields(fields);
  }

  /** The first loop of `strtok`: skip the delimiters at `pos`. */
  method SkipDelimiters(s: string, pos: nat) returns (p: nat)
    requires pos <= |s|
    ensures pos <= p <= |s| && (p < |s| ==> s[p] != DELIMITER)
    ensures Tokens(s[pos..]) == Tokens(s[p..])
  {
    p := pos;
    while p < |s| && s[p] == DELIMITER
      invariant pos <= p <= |s|
      invariant Tokens(s[pos..]) == Tokens(s[p..])
    {
      assert s[p..][1..] == s[p + 1..];
      p := p + 1;
    }
  }

  /** The second loop of `strtok`: find the end of the token that starts at `p`. */
  method FindTokenEnd(s: string, p: nat) returns (q: nat)
    requires p <= |s|
    ensures p <= q <= |s| && q - p == TokenEnd(s[p..])
  {
    q := p;
    while q < |s| && s[q] != DELIMITER
      invariant p <= q <= |s|
      invariant DELIMITER !in s[p..q]
    {
      assert s[p..q + 1] == s[p..q] + [s[q]];
      q := q + 1;
    }
    assert s[p..][..q - p] == s[p..q];
    TokenEndUnique(s[p..], q - p);
  }

  /**
    `strtok` from position `pos`: skip delimiters, return the run up to the
    next delimiter or the end, and continue after that delimiter.  `None` is
    the `NULL` returned once no token is left.
   */
  method NextToken(s: string, pos: nat) returns (token: Option<string>, next: nat)
    requires pos <= |s|
    ensures next <= |s|
    ensures token.None? <==> Tokens(s[pos..]) == []
    ensures token.Some? ==> Tokens(s[pos..]) == [token.value] + Tokens(s[next..])
  {
    var p := SkipDelimiters(s, pos);
    if p == |s| {
      return None, p;
    }
    var q := FindTokenEnd(s, p);
    token := Some(s[p..q]);
    next := if q < |s| then q + 1 else q;
    TokenAt(s, p, q, next);
  }

  /** The token `strtok` cuts at `p .. q` is the first of `Tokens(s[p..])`, and the rest follow from `next`. */
  lemma TokenAt(s: string, p: nat, q: nat, next: nat)
    requires p < |s| && s[p] != DELIMITER && p <= q <= |s| && q - p == TokenEnd(s[p..])
    requires next == if q < |s| then q + 1 else q
    ensures Tokens(s[p..]) == [s[p..q]] + Tokens(s[next..])
  {
    assert s[p..][..q - p] == s[p..q];
    assert s[p..][q - p..] == s[q..];
    if q < |s| {
      assert s[q..][1..] == s[q + 1..];
    }
  }

  /** The inner loop of lines 42-57: walk the tokens up to column 6 and compare. */
  method ScanLine(line: string) returns (matched: bool)
    ensures matched <==> IsTarget(line)
  {
    matched := false;
    var column := 1;
    var token: Option<string>, pos: nat := NextToken(line, 0);
    ghost var before: seq<string> := [];
    assert line[0..] == line;
    while token.Some?
      invariant 1 <= column <= TARGET_COLUMN && |before| == column - 1
      invariant pos <= |line|
      invariant Tokens(line) == before + (if token.Some? then [token.value] + Tokens(line[pos..]) else [])
      decreases TARGET_COLUMN - column
    {
      if column == TARGET_COLUMN {
        matched := token.value == TARGET_VALUE;
        assert Tokens(line)[TARGET_COLUMN - 1] == token.value;
        return;
      }
      before := before + [token.value];
      token, pos := NextToken(line, pos);
      column := column + 1;
    }
  }

  /** How totalAlunos.c ends: `fopen` failed, the file had no header line, or the count was printed. */
  datatype Outcome = OpenFailed | EmptyFile | Counted(matches: nat, linesRead: nat)

  /** The number of `lines` whose sixth token is "72". */
  function CountMatches(lines: seq<string>): nat {
    if lines == [] then 0
    else CountMatches(lines[..|lines| - 1]) + (if IsTarget(lines[|lines| - 1]) then 1 else 0)
  }

  /** What the program reports for a file, a `None` file being one `fopen` cannot open. */
  function Report(file: Option<seq<string>>): Outcome {
    match file
    case None => OpenFailed
    case Some(lines) => if lines == [] then EmptyFile else Counted(CountMatches(lines[1..]), |lines|)
  }

  /** `main` without the printing: the header is read and dropped, then every data line is scanned. */
  method CountGroup(file: Option<seq<string>>) returns (outcome: Outcome)
    ensures outcome == Report(file)
  {
    if file.None? {
      return OpenFailed;
    }
    var lines := file.value;
    if |lines| == 0 {
      return EmptyFile;
    }
    var count := 0;
    var lineNumber := 1;
    while lineNumber < |lines|
      invariant 1 <= lineNumber <= |lines|
      invariant count == CountMatches(lines[1..lineNumber])
    {
      var matched := ScanLine(lines[lineNumber]);
      assert lines[1..lineNumber + 1][..lineNumber - 1] == lines[1..lineNumber];
      if matched {
        count := count + 1;
      }
      lineNumber := lineNumber + 1;
    }
    assert lines[1..lineNumber] == lines[1..];
    return Counted(count, lineNumber);
  }

  lemma {:induction false} CountMatchesBound(lines: seq<string>)
    ensures CountMatches(lines) <= |lines|
  {
    if lines != [] {
      CountMatchesBound(lines[..|lines| - 1]);
    }
  }

  /**
    `numero_linha` counts the header and every data line, `contador_72` never
    passes `numero_linha - 1`, and the header never counts: any other header
    gives the same report.
   */
  lemma CountedBounds(header: string, other: string, data: seq<string>)
    ensures Report(Some([header] + data)) == Counted(CountMatches(data), |data| + 1)
    ensures Report(Some([header] + data)).matches <= Report(Some([header] + data)).linesRead - 1
    ensures Report(Some([header] + data)) == Report(Some([other] + data))
  {
    assert ([header] + data)[1..] == data;
    assert ([other] + data)[1..] == data;
    CountMatchesBound(data);
  }

  /** Counting two runs of lines is adding their counts. */
  lemma {:induction false} CountMatchesAppend(x: seq<string>, y: seq<string>)
    ensures CountMatches(x + y) == CountMatches(x) + CountMatches(y)
  {
    if y == [] {
      assert x + y == x;
    } else {
      assert (x + y)[..|x + y| - 1] == x + y[..|y| - 1];
      CountMatchesAppend(x, y[..|y| - 1]);
    }
  }
}
