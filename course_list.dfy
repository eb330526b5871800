/**
  The ADS course list that rank 0 of mpi_enade.c builds from arq1: a
  duplicate-free `int` array grown by `realloc`, first to 100 entries and
  then by doubling, holding the course code of every data row whose group
  code is 72.
 */
module CourseList {

  /**
    One line of arq1 as `sscanf(line, "%*[^;];%d;%*[^;];%*[^;];%*[^;];%d", ...)`
    leaves it: the number of conversions made, the course code (column 2) and
    the group code (column 6).
   */
  datatype RefRow = RefRow(itemsRead: int, courseCode: int, groupCode: int)

  /** `ADS_GROUP_CODE`. */
  const ADS_GROUP_CODE: int := 72

  /** The capacity of the first allocation. */
  const INITIAL_CAPACITY: nat := 100

  /** The build loop's filter: both numbers were read and the group is ADS. */
  predicate Qualifies(row: RefRow) {
    row.itemsRead >= 2 && row.groupCode == ADS_GROUP_CODE
  }

  predicate Distinct(s: seq<int>) {
    forall i, j :: 0 <= i < j < |s| ==> s[i] != s[j]
  }

  /** The codes the build loop holds after the data rows `rows`, in the order they were appended. */
  function Collect(rows: seq<RefRow>): seq<int> {
    if rows == [] then []
    else
      var prev := Collect(rows[..|rows| - 1]);
      var row := rows[|rows| - 1];
      if Qualifies(row) && row.courseCode !in prev then prev + [row.courseCode] else prev
  }

  /** The list built from the whole of arq1: its first line is the header and is skipped. */
  function AdsCourses(file: seq<RefRow>): seq<int> {
    if |file| == 0 then [] else Collect(file[1..])
  }

  /** Capacities the growth rule reaches from 0: 100, 200, 400, ... */
  predicate IsGrownCapacity(c: nat)
    decreases c
  {
    c == INITIAL_CAPACITY || (c > INITIAL_CAPACITY && c % 2 == 0 && IsGrownCapacity(c / 2))
  }

  /** `(capacity == 0) ? 100 : capacity * 2`. */
  function NextCapacity(c: nat): (n: nat)
    requires c == 0 || IsGrownCapacity(c)
    ensures IsGrownCapacity(n) && n > c
  {
    if c == 0 then INITIAL_CAPACITY
    else
      assert (2 * c) / 2 == c;
      2 * c
  }

  /** The growable array `ads_courses` with its element count `num_ads_courses`; `capacity` is `data.Length`. */
  class AdsCourseList {
    var data: array<int>
    var count: nat

    /**
      The list's invariant: the count fits in the capacity, no code is stored
      twice, the capacity is 0 or one the growth rule reaches, it is 0 only while
      the list is empty, and beyond the first allocation it is never more than
      twice the number of stored codes.
     */
    ghost predicate Valid()
      reads this, data
    {
      && count <= data.Length
      && Distinct(data[..count])
      && (data.Length == 0 || IsGrownCapacity(data.Length))
      && (count == 0 <==> data.Length == 0)
      && (data.Length <= INITIAL_CAPACITY || data.Length <= 2 * count)
    }

    /** The codes stored so far, `ads_courses[0 .. num_ads_courses)`. */
    function Contents(): seq<int>
      reads this, data
      requires Valid()
    {
      data[..count]
    }

    /** `ads_courses = NULL; num_ads_courses = 0; capacity = 0;` */
    constructor ()
      ensures Valid() && fresh(data)
      ensures Contents() == [] && data.Length == 0
    {
      data := new int[0];
      count := 0;
    }

    /** `is_course_in_list(course_code, ads_courses, num_ads_courses)`. */
    method Contains(code: int) returns (found: bool)
      requires Valid()
      ensures found <==> code in Contents()
    {
      var i := 0;
      while i < count
        invariant 0 <= i <= count
        invariant code !in data[..i]
      {
        if data[i] == code {
          return true;
        }
        i := i + 1;
      }
      return false;
    }

    /**
      `ads_courses[num_ads_courses++] = course_code`, preceded by the `realloc`
      to the next capacity when the array is full.  The caller has checked that
      the code is new.  Existing entries are kept, in place.
     */
    method Append(code: int)
      requires Valid() && code !in Contents()
      modifies this, data
      ensures Valid()
      ensures Contents() == old(Contents()) + [code]
      ensures old(count) == old(data.Length) ==> data.Length == NextCapacity(old(data.Length)) && fresh(data)
      ensures old(count) < old(data.Length) ==> data == old(data)
    {
      ghost var before := data[..count];
      if count == data.Length {
        var grown := new int[NextCapacity(data.Length)];
        var i := 0;
        while i < count
          invariant 0 <= i <= count == data.Length < grown.Length
          invariant grown[..i] == data[..i]
          modifies grown
        {
          grown[i] := data[i];
          i := i + 1;
        }
        data := grown;
      }
      assert data[..count] == before;
      data[count] := code;
      assert data[..count + 1] == before + [code];
      count := count + 1;
    }
  }

  /**
    Rank 0's loop over arq1 (header skipped): every qualifying row whose code
    is not yet in the list appends it.
   */
  method BuildAdsCourses(file: seq<RefRow>) returns (list: AdsCourseList)
    ensures fresh(list) && list.Valid()
    ensures list.Contents() == AdsCourses(file)
  {
    list := new AdsCourseList();
    if |file| == 0 {
      return;
    }
    var k := 1;
    while k < |file|
      invariant 1 <= k <= |file|
      invariant fresh(list) && fresh(list.data) && list.Valid()
      invariant list.Contents() == Collect(file[1..k])
    {
      ghost var prefix := file[1..k + 1];
      assert prefix[..|prefix| - 1] == file[1..k] && prefix[|prefix| - 1] == file[k];
      CollectStep(prefix);
      AdmitRow(list, file[k]);
      k := k + 1;
    }
    assert file[1..k] == file[1..];
  }

  /** One turn of the build loop: a qualifying row whose code is not listed yet appends it. */
  method AdmitRow(list: AdsCourseList, row: RefRow)
    requires list.Valid()
    modifies list, list.data
    ensures list.Valid()
    ensures fresh(list.data) || list.data == old(list.data)
    ensures list.Contents() ==
      if Qualifies(row) && row.courseCode !in old(list.Contents()) then old(list.Contents()) + [row.courseCode]
      else old(list.Contents())
  {
    if row.itemsRead >= 2 && row.groupCode == ADS_GROUP_CODE {
      var present := list.Contains(row.courseCode);
      if !present {
        list.Append(row.courseCode);
      }
    }
  }

  /** One data row more: the row's code is appended when it qualifies and is new. */
  lemma CollectStep(rows: seq<RefRow>)
    requires rows != []
    ensures var prev, row := Collect(rows[..|rows| - 1]), rows[|rows| - 1];
      Collect(rows) == if Qualifies(row) && row.courseCode !in prev then prev + [row.courseCode] else prev
  {
  }

  /** The list never holds a code twice. */
  lemma {:induction false} CollectDistinct(rows: seq<RefRow>)
    ensures Distinct(Collect(rows))
  {
    if rows != [] {
      CollectDistinct(rows[..|rows| - 1]);
    }
  }

  /** A code is in the list exactly when some data row qualifies and carries it. */
  lemma {:induction false} CollectMembers(rows: seq<RefRow>, x: int)
    ensures x in Collect(rows) <==> exists i :: 0 <= i < |rows| && Qualifies(rows[i]) && rows[i].courseCode == x
  {
    if rows != [] {
      var init := rows[..|rows| - 1];
      CollectMembers(init, x);
      assert forall i :: 0 <= i < |init| ==> init[i] == rows[i];
    }
  }

  /** The whole-file version: membership is decided by the data rows alone. */
  lemma AdsCoursesMembers(file: seq<RefRow>, x: int)
    requires |file| > 0
    ensures x in AdsCourses(file) <==>
      exists i :: 1 <= i < |file| && Qualifies(file[i]) && file[i].courseCode == x
  {
    CollectMembers(file[1..], x);
    if x in AdsCourses(file) {
      var i :| 0 <= i < |file[1..]| && Qualifies(file[1..][i]) && file[1..][i].courseCode == x;
      assert file[i + 1] == file[1..][i];
    }
    if exists i :: 1 <= i < |file| && Qualifies(file[i]) && file[i].courseCode == x {
      var i :| 1 <= i < |file| && Qualifies(file[i]) && file[i].courseCode == x;
      assert file[1..][i - 1] == file[i];
    }
  }

  /**
    Reordering the data rows of arq1 (the header staying first) may reorder the
    list but not change which codes it holds, nor how many.
   */
  lemma AdsCoursesOrderIndependent(a: seq<RefRow>, b: seq<RefRow>)
    requires |a| > 0 && |b| > 0 && multiset(a[1..]) == multiset(b[1..])
    ensures forall x :: x in AdsCourses(a) <==> x in AdsCourses(b)
    ensures |AdsCourses(a)| == |AdsCourses(b)|
  {
    forall x
      ensures x in AdsCourses(a) <==> x in AdsCourses(b)
    {
      CollectMembers(a[1..], x);
      CollectMembers(b[1..], x);
      if exists i :: 0 <= i < |a[1..]| && Qualifies(a[1..][i]) && a[1..][i].courseCode == x {
        var i :| 0 <= i < |a[1..]| && Qualifies(a[1..][i]) && a[1..][i].courseCode == x;
        assert a[1..][i] in multiset(b[1..]);
        var j :| 0 <= j < |b[1..]| && b[1..][j] == a[1..][i];
      }
      if exists i :: 0 <= i < |b[1..]| && Qualifies(b[1..][i]) && b[1..][i].courseCode == x {
        var i :| 0 <= i < |b[1..]| && Qualifies(b[1..][i]) && b[1..][i].courseCode == x;
        assert b[1..][i] in multiset(a[1..]);
        var j :| 0 <= j < |a[1..]| && a[1..][j] == b[1..][i];
      }
    }
    CollectDistinct(a[1..]);
    CollectDistinct(b[1..]);
    DistinctSameElementsSameLength(AdsCourses(a), AdsCourses(b));
  }

  /** Two duplicate-free lists with the same elements have the same length. */
  lemma DistinctSameElementsSameLength(s: seq<int>, t: seq<int>)
    requires Distinct(s) && Distinct(t)
    requires forall x :: x in s <==> x in t
    ensures |s| == |t|
  {
    DistinctCardinality(s);
    DistinctCardinality(t);
    assert (set x | x in s) == (set x | x in t);
  }

  lemma {:induction false} DistinctCardinality(s: seq<int>)
    requires Distinct(s)
    ensures |set x | x in s| == |s|
  {
    if s != [] {
      var init := s[..|s| - 1];
      assert Distinct(init);
      DistinctCardinality(init);
      assert (set x | x in s) == (set x | x in init) + {s[|s| - 1]};
      assert s[|s| - 1] !in init;
    }
  }
}
