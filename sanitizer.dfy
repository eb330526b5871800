/**
  `limpar_aspas_e_espacos` of enade_ficticio.c: trims, in place, the maximal
  leading and trailing runs of white space and double quotes of a
  NUL-terminated string.  The buffer is a `char` array holding a `'\0'`
  somewhere; the string is everything before the first one.
 */
module Sanitizer {

  const NUL: char := '\0'

  /** `isspace` in the "C" locale: space, `\t`, `\n`, `\v`, `\f`, `\r`. */
  predicate IsSpace(c: char) {
    c == ' ' || c == '\t' || c == '\n' || c == '\U{000B}' || c == '\U{000C}' || c == '\r'
  }

  /** The characters the function strips from both ends. */
  predicate IsStripped(c: char) {
    IsSpace(c) || c == '"'
  }

  /** The index of the first `'\0'`: `strlen`. */
  function Strlen(s: seq<char>): (n: nat)
    requires NUL in s
    ensures n < |s| && s[n] == NUL && NUL !in s[..n]
  {
    if s[0] == NUL then 0
    else
      var n := 1 + Strlen(s[1..]);
      assert s[..n] == [s[0]] + s[1..][..n - 1];
      n
  }

  /** The C string a buffer holds. */
  function CString(s: seq<char>): seq<char>
    requires NUL in s
  {
    s[..Strlen(s)]
  }

  /** The first index at or after `i` that is not stripped, or `|s|`. */
  function SkipFrom(s: seq<char>, i: nat): (j: nat)
    requires i <= |s|
    ensures i <= j <= |s|
    decreases |s| - i
  {
    if i < |s| && IsStripped(s[i]) then SkipFrom(s, i + 1) else i
  }

  /** The end of the kept part: walking back from `j`, stripped characters are dropped, but never past `lo`. */
  function BackFrom(s: seq<char>, lo: nat, j: nat): (k: nat)
    requires lo <= j <= |s|
    ensures lo <= k <= j
  {
    if j > lo && IsStripped(s[j - 1]) then BackFrom(s, lo, j - 1) else j
  }

  /** Where the kept part of `s` starts. */
  function TrimStart(s: seq<char>): nat
    ensures TrimStart(s) <= |s|
  {
    SkipFrom(s, 0)
  }

  /** Where the kept part of `s` stops. */
  function TrimStop(s: seq<char>): nat
    ensures TrimStart(s) <= TrimStop(s) <= |s|
  {
    BackFrom(s, TrimStart(s), |s|)
  }

  /** The string with its leading and trailing white space and quotes removed. */
  function Trim(s: seq<char>): seq<char> {
    s[TrimStart(s)..TrimStop(s)]
  }

  /** Every character `SkipFrom` passes over is stripped, and it stops at one that is not. */
  lemma {:induction false} SkipFromSpec(s: seq<char>, i: nat)
    requires i <= |s|
    ensures forall k :: i <= k < SkipFrom(s, i) ==> IsStripped(s[k])
    ensures SkipFrom(s, i) < |s| ==> !IsStripped(s[SkipFrom(s, i)])
    decreases |s| - i
  {
    if i < |s| && IsStripped(s[i]) {
      SkipFromSpec(s, i + 1);
    }
  }

  /** Every character `BackFrom` drops is stripped, and it stops after one that is not (or at `lo`). */
  lemma {:induction false} BackFromSpec(s: seq<char>, lo: nat, j: nat)
    requires lo <= j <= |s|
    ensures forall k :: BackFrom(s, lo, j) <= k < j ==> IsStripped(s[k])
    ensures BackFrom(s, lo, j) > lo ==> !IsStripped(s[BackFrom(s, lo, j) - 1])
  {
    if j > lo && IsStripped(s[j - 1]) {
      BackFromSpec(s, lo, j - 1);
    }
  }

  /**
    What `Trim` keeps and what it drops: `s` is a stripped prefix, then the
    result, then a stripped suffix; the result is empty or begins and ends with
    a character that is kept.  So the runs removed are maximal and the interior
    is untouched.
   */
  lemma TrimShape(s: seq<char>)
    ensures s == s[..TrimStart(s)] + Trim(s) + s[TrimStop(s)..]
    ensures forall k :: 0 <= k < TrimStart(s) ==> IsStripped(s[k])
    ensures forall k :: TrimStop(s) <= k < |s| ==> IsStripped(s[k])
    ensures Trim(s) != [] ==> !IsStripped(Trim(s)[0]) && !IsStripped(Trim(s)[|Trim(s)| - 1])
  {
    SkipFromSpec(s, 0);
    BackFromSpec(s, TrimStart(s), |s|);
    assert s == s[..TrimStart(s)] + s[TrimStart(s)..TrimStop(s)] + s[TrimStop(s)..];
  }

  /** A string that begins and ends with a kept character (or is empty) is its own trim. */
  lemma TrimOfTrimmed(t: seq<char>)
    requires t != [] ==> !IsStripped(t[0]) && !IsStripped(t[|t| - 1])
    ensures Trim(t) == t
  {
    if t != [] {
      assert TrimStart(t) == 0;
      assert TrimStop(t) == |t|;
    }
  }

  /** Trimming twice is trimming once. */
  lemma TrimIdempotent(s: seq<char>)
    ensures Trim(Trim(s)) == Trim(s)
  {
    TrimShape(s);
    TrimOfTrimmed(Trim(s));
  }

  /** `strlen`, as the loop a C library runs. */
  method StringLength(a: array<char>) returns (n: nat)
    requires NUL in a[..]
    ensures n == Strlen(a[..])
  {
    n := 0;
    while a[n] != NUL
      invariant n <= Strlen(a[..])
      invariant NUL !in a[..n]
      decreases Strlen(a[..]) - n
    {
      assert a[..n + 1] == a[..n] + [a[n]];
      n := n + 1;
    }
    assert a[..][n] == NUL;
  }

  /** The front scan of the function: from the start of the buffer, past every stripped character. */
  method SkipStripped(a: array<char>, ghost s: seq<char>) returns (inicio: nat)
    requires NUL in a[..] && s == CString(a[..])
    ensures inicio == TrimStart(s)
  {
    ghost var n := Strlen(a[..]);
    inicio := 0;
    while IsStripped(a[inicio])
      invariant inicio <= n
      invariant SkipFrom(s, inicio) == TrimStart(s)
      decreases n - inicio
    {
      inicio := inicio + 1;
    }
  }

  /**
    The back scan: `fim` starts at the last character and moves down while it
    is above `inicio` and on a stripped character; the kept part ends at
    `fim + 1`.
   */
  method BackStripped(a: array<char>, ghost s: seq<char>, n: nat, inicio: nat) returns (stop: nat)
    requires NUL in a[..] && s == CString(a[..]) && n == |s| > 0 && inicio == TrimStart(s)
    ensures stop == TrimStop(s)
  {
    SkipFromSpec(s, 0);
    assert forall j :: 0 <= j < n ==> s[j] == a[j];
    var fim: int := n - 1;
    while fim > inicio && IsStripped(a[fim])
      invariant inicio <= fim + 1 <= n
      invariant fim + 1 > inicio ==> BackFrom(s, inicio, fim + 1) == TrimStop(s)
      invariant fim + 1 == inicio ==> inicio == n
    {
      fim := fim - 1;
    }
    stop := fim + 1;
    if stop == inicio {
      assert TrimStop(s) == n;
    }
  }

  /** `memmove(a, a + from, count)`: a forward copy, safe because the destination lies before the source. */
  method MoveDown(a: array<char>, from: nat, count: nat)
    requires from + count <= a.Length
    modifies a
    ensures forall j :: 0 <= j < count ==> a[j] == old(a[from + j])
    ensures forall j :: count <= j < a.Length ==> a[j] == old(a[j])
  {
    var k := 0;
    while k < count
      invariant 0 <= k <= count
      invariant forall j :: 0 <= j < k ==> a[j] == old(a[from + j])
      invariant forall j :: k <= j < a.Length ==> a[j] == old(a[j])
    {
      a[k] := a[from + k];
      k := k + 1;
    }
  }

  /**
    `limpar_aspas_e_espacos(str)`: a `NULL` argument or an empty string is left as
    is; otherwise the stripped characters are skipped from the front, the back
    is walked down to the last kept character (never below the first kept
    one), a `'\0'` is written after it, and the kept part is moved to the start
    of the buffer together with its terminator.  The bytes past the new
    terminator keep their old values, except the one where the first `'\0'`
    was written.
   */
  method Sanitize(a: array?<char>)
    requires a != null ==> NUL in a[..]
    modifies a
    ensures a != null ==> NUL in a[..] && CString(a[..]) == Trim(old(CString(a[..])))
    ensures a != null ==>
      var s := old(CString(a[..]));
      var start, stop := TrimStart(s), TrimStop(s);
      var m := stop - start;
      && a[m] == NUL && a[stop] == NUL
      && (forall k :: 0 <= k < m ==> a[k] == old(a[start + k]))
      && (forall k :: m < k < a.Length && k != stop ==> a[k] == old(a[k]))
  {
    if a == null {
      return;
    }
    ghost var s := CString(a[..]);
    if a[0] == NUL {
      assert Strlen(a[..]) == 0;
      return;
    }
    ghost var buf := a[..];
    var n := StringLength(a);
    var inicio := SkipStripped(a, s);
    var stop := BackStripped(a, s, n, inicio);
    a[stop] := NUL;
    var m := stop - inicio;
    if inicio != 0 {
      MoveDown(a, inicio, m + 1);
    }
    KeptPartIsTheString(buf, a[..], s, inicio, stop);
  }

  /** After the moves, the buffer's C string is the kept part `s[start..stop]` of the old one. */
  lemma KeptPartIsTheString(buf: seq<char>, after: seq<char>, s: seq<char>, start: nat, stop: nat)
    requires NUL in buf && s == CString(buf) && start <= stop <= |s| && |after| == |buf|
    requires forall k :: 0 <= k < stop - start ==> after[k] == buf[start + k]
    requires after[stop - start] == NUL
    ensures NUL in after && CString(after) == s[start..stop]
  {
    var m := stop - start;
    assert NUL !in after[..m] by {
      forall j | 0 <= j < m ensures after[..m][j] != NUL {
        assert after[j] == s[start + j];
      }
    }
    StrlenUnique(after, m);
    assert after[..m] == s[start..stop];
  }

  /** A `'\0'` with none before it is the one `strlen` finds. */
  lemma StrlenUnique(s: seq<char>, m: nat)
    requires m < |s| && s[m] == NUL && NUL !in s[..m]
    ensures Strlen(s) == m
  {
  }
}
