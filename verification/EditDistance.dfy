/** Edit distance between two names, computed in one row, and what it measures. */
module EditDistances {
  import opened Integers

  function Init(s: string): string
    requires s != []
  {
    s[..|s| - 1]
  }

  function Last(s: string): char
    requires s != []
  {
    s[|s| - 1]
  }

  function Differ(x: char, y: char): int {
    if x == y then 0 else 1
  }

  /** The distance between the first `i` characters of `a` and the first `j` of `b`. */
  function Cell(a: string, b: string, i: nat, j: nat): int
    requires i <= |a| && j <= |b|
    decreases i + j
  {
    if i == 0 then j
    else if j == 0 then i
    else Min(Min(Cell(a, b, i - 1, j - 1) + Differ(a[i - 1], b[j - 1]), Cell(a, b, i, j - 1) + 1), Cell(a, b, i - 1, j) + 1)
  }

  function Dist(a: string, b: string): int {
    Cell(a, b, |a|, |b|)
  }

  /** The cells of the table, as a function. */
  type Table = (int, int) -> int

  ghost predicate Step(t: Table, a: string, b: string, i: nat, j: nat)
    requires i < |a| && j < |b|
  {
    t(i + 1, j + 1) == Min(Min(t(i, j) + Differ(a[i], b[j]), t(i + 1, j) + 1), t(i, j + 1) + 1)
  }

  ghost predicate IsTable(t: Table, a: string, b: string) {
    && (forall j: nat :: j <= |b| ==> t(0, j) == j)
    && (forall i: nat :: i <= |a| ==> t(i, 0) == i)
    && (forall i: nat, j: nat :: i < |a| && j < |b| ==> Step(t, a, b, i, j))
  }

  lemma CellTable(a: string, b: string) returns (t: Table)
    ensures IsTable(t, a, b) && t(|a|, |b|) == Dist(a, b)
  {
    t := (i, j) => if 0 <= i <= |a| && 0 <= j <= |b| then Cell(a, b, i, j) else 0;
  }

  method EditDistance(a: string, b: string) returns (d: int)
    ensures d == Dist(a, b)
  {
    ghost var t := CellTable(a, b);
    d := Sweep(a, b, t);
  }

  /** One row of the table, updated in place as it sweeps over `a`. */
  method Sweep(a: string, b: string, ghost t: Table) returns (d: int)
    requires IsTable(t, a, b)
    ensures d == t(|a|, |b|)
  {
    var row := new int[|b| + 1](j => j);
    for i := 0 to |a|
      invariant forall j :: 0 <= j <= |b| ==> row[j] == t(i, j)
    {
      NextRow(a, b, t, i, row);
    }
    d := row[|b|];
  }

  method NextRow(a: string, b: string, ghost t: Table, i: nat, row: array<int>)
    requires IsTable(t, a, b) && i < |a| && row.Length == |b| + 1
    requires forall j :: 0 <= j <= |b| ==> row[j] == t(i, j)
    modifies row
    ensures forall j :: 0 <= j <= |b| ==> row[j] == t(i + 1, j)
  {
    var prev := row[0];
    row[0] := i + 1;
    for j := 0 to |b|
      invariant prev == t(i, j)
      invariant forall k :: 0 <= k <= j ==> row[k] == t(i + 1, k)
      invariant forall k :: j < k <= |b| ==> row[k] == t(i, k)
    {
      assert Step(t, a, b, i, j);
      var cur := row[j + 1];
      row[j + 1] := Min(Min(prev + Differ(a[i], b[j]), row[j] + 1), cur + 1);
      prev := cur;
    }
  }

  // ----- scripts of single edits -----

  /** `t` is `s` with one character inserted, deleted or substituted. */
  ghost predicate EditAt(s: string, t: string, p: string, x: string, y: string, q: string) {
    s == p + x + q && t == p + y + q && |x| <= 1 && |y| <= 1 && x != y
  }

  ghost predicate OneEdit(s: string, t: string) {
    exists p, x, y, q :: EditAt(s, t, p, x, y, q)
  }

  /** A script: every string is one edit from the one before. */
  ghost predicate Script(steps: seq<string>, a: string, b: string) {
    && |steps| > 0 && steps[0] == a && steps[|steps| - 1] == b
    && forall i :: 0 <= i < |steps| - 1 ==> OneEdit(steps[i], steps[i + 1])
  }

  // ----- the distance is a metric -----

  lemma {:induction false} CellNonNegative(a: string, b: string, i: nat, j: nat)
    requires i <= |a| && j <= |b|
    ensures 0 <= Cell(a, b, i, j) <= i + j && i <= j + Cell(a, b, i, j) && j <= i + Cell(a, b, i, j)
    decreases i + j
  {
    if i > 0 && j > 0 {
      CellNonNegative(a, b, i - 1, j - 1);
      CellNonNegative(a, b, i, j - 1);
      CellNonNegative(a, b, i - 1, j);
    }
  }

  lemma {:induction false} CellToSelf(a: string, i: nat)
    requires i <= |a|
    ensures Cell(a, a, i, i) == 0
  {
    if i > 0 {
      CellToSelf(a, i - 1);
      CellNonNegative(a, a, i, i);
    }
  }

  lemma {:induction false} CellSymmetric(a: string, b: string, i: nat, j: nat)
    requires i <= |a| && j <= |b|
    ensures Cell(a, b, i, j) == Cell(b, a, j, i)
    decreases i + j
  {
    if i > 0 && j > 0 {
      CellSymmetric(a, b, i - 1, j - 1);
      CellSymmetric(a, b, i, j - 1);
      CellSymmetric(a, b, i - 1, j);
    }
  }

  lemma {:induction false} CellTriangle(a: string, b: string, c: string, i: nat, j: nat, k: nat)
    requires i <= |a| && j <= |b| && k <= |c|
    ensures Cell(a, c, i, k) <= Cell(a, b, i, j) + Cell(b, c, j, k)
    decreases i + j + k, 1
  {
    if i == 0 || j == 0 || k == 0 {
      CellNonNegative(a, c, i, k);
      CellNonNegative(a, b, i, j);
      CellNonNegative(b, c, j, k);
    } else if Cell(a, b, i, j) == Cell(a, b, i - 1, j) + 1 {
      CellTriangle(a, b, c, i - 1, j, k);
    } else if Cell(b, c, j, k) == Cell(b, c, j, k - 1) + 1 {
      CellTriangle(a, b, c, i, j, k - 1);
    } else if Cell(a, b, i, j) == Cell(a, b, i, j - 1) + 1 {
      CellTriangleInserting(a, b, c, i, j, k);
    } else {
      CellTriangleMatching(a, b, c, i, j, k);
    }
  }

  /** The last of `b` was inserted on the way from `a`, and is deleted or matched. */
  lemma {:induction false} CellTriangleInserting(a: string, b: string, c: string, i: nat, j: nat, k: nat)
    requires 0 < i <= |a| && 0 < j <= |b| && 0 < k <= |c|
    requires Cell(a, b, i, j) == Cell(a, b, i, j - 1) + 1 && Cell(b, c, j, k) != Cell(b, c, j, k - 1) + 1
    ensures Cell(a, c, i, k) <= Cell(a, b, i, j) + Cell(b, c, j, k)
    decreases i + j + k, 0
  {
    if Cell(b, c, j, k) == Cell(b, c, j - 1, k) + 1 {
      CellTriangle(a, b, c, i, j - 1, k);
    } else {
      CellTriangle(a, b, c, i, j - 1, k - 1);
    }
  }

  /** The last of `b` was matched on the way from `a`, and is deleted or matched. */
  lemma {:induction false} CellTriangleMatching(a: string, b: string, c: string, i: nat, j: nat, k: nat)
    requires 0 < i <= |a| && 0 < j <= |b| && 0 < k <= |c|
    requires Cell(a, b, i, j) == Cell(a, b, i - 1, j - 1) + Differ(a[i - 1], b[j - 1])
    requires Cell(b, c, j, k) != Cell(b, c, j, k - 1) + 1
    ensures Cell(a, c, i, k) <= Cell(a, b, i, j) + Cell(b, c, j, k)
    decreases i + j + k, 0
  {
    if Cell(b, c, j, k) == Cell(b, c, j - 1, k) + 1 {
      CellTriangle(a, b, c, i - 1, j - 1, k);
    } else {
      CellTriangle(a, b, c, i - 1, j - 1, k - 1);
    }
  }

  /** The distance is symmetric. */
  lemma DistSymmetric(a: string, b: string)
    ensures Dist(a, b) == Dist(b, a)
  {
    CellSymmetric(a, b, |a|, |b|);
  }

  /** Going by way of a third string is never shorter. */
  lemma Triangle(a: string, b: string, c: string)
    ensures Dist(a, c) <= Dist(a, b) + Dist(b, c)
  {
    CellTriangle(a, b, c, |a|, |b|, |c|);
  }

  // ----- the distance is the length of a shortest script -----

  /** A cell looks only at the characters before it. */
  lemma {:induction false} CellOfPrefix(a: string, b: string, u: string, v: string, i: nat, j: nat)
    requires i <= |u| <= |a| && j <= |v| <= |b|
    requires u == a[..|u|] && v == b[..|v|]
    ensures Cell(a, b, i, j) == Cell(u, v, i, j)
    decreases i + j
  {
    if i > 0 && j > 0 {
      CellOfPrefix(a, b, u, v, i - 1, j - 1);
      CellOfPrefix(a, b, u, v, i, j - 1);
      CellOfPrefix(a, b, u, v, i - 1, j);
    }
  }

  /** The distance by the last characters. */
  lemma DistByLast(a: string, b: string)
    requires a != [] && b != []
    ensures Dist(a, b) == Min(Min(Dist(Init(a), Init(b)) + Differ(Last(a), Last(b)), Dist(a, Init(b)) + 1), Dist(Init(a), b) + 1)
  {
    CellOfPrefix(a, b, Init(a), Init(b), |a| - 1, |b| - 1);
    CellOfPrefix(a, b, a, Init(b), |a|, |b| - 1);
    CellOfPrefix(a, b, Init(a), b, |a| - 1, |b|);
  }

  lemma {:induction false} CommonSuffix(u: string, v: string, q: string)
    ensures Dist(u + q, v + q) <= Dist(u, v)
  {
    if q == [] {
      assert u + q == u && v + q == v;
    } else {
      CommonSuffix(u, v, Init(q));
      assert Init(u + q) == u + Init(q) && Init(v + q) == v + Init(q);
      assert Last(u + q) == Last(v + q) == Last(q);
      DistByLast(u + q, v + q);
    }
  }

  lemma OneEditIsNear(s: string, t: string)
    requires OneEdit(s, t)
    ensures Dist(s, t) <= 1
  {
    var p, x, y, q :| EditAt(s, t, p, x, y, q);
    CommonSuffix(p + x, p + y, q);
    LastDiffers(p, x, y);
  }

  lemma LastDiffers(p: string, x: string, y: string)
    requires |x| <= 1 && |y| <= 1
    ensures Dist(p + x, p + y) <= 1
  {
    CellToSelf(p, |p|);
    CellOfPrefix(p + x, p + y, p, p, |p|, |p|);
    CellNonNegative(p + x, p + y, |p|, |p|);
  }

  lemma {:induction false} NoScriptIsShorter(steps: seq<string>, a: string, b: string)
    requires Script(steps, a, b)
    ensures Dist(a, b) <= |steps| - 1
  {
    if |steps| == 1 {
      CellToSelf(a, |a|);
    } else {
      var rest := steps[1..];
      assert forall i :: 0 <= i < |rest| ==> rest[i] == steps[i + 1];
      NoScriptIsShorter(rest, steps[1], b);
      OneEditIsNear(steps[0], steps[1]);
      Triangle(a, steps[1], b);
    }
  }

  /** A script for `a` and `b` with the same character put after every string. */
  lemma {:induction false} ScriptBefore(steps: seq<string>, a: string, b: string, c: char) returns (longer: seq<string>)
    requires Script(steps, a, b)
    ensures Script(longer, a + [c], b + [c]) && |longer| == |steps|
  {
    longer := seq(|steps|, i requires 0 <= i < |steps| => steps[i] + [c]);
    forall i | 0 <= i < |longer| - 1
      ensures OneEdit(longer[i], longer[i + 1])
    {
      var p, x, y, q :| EditAt(steps[i], steps[i + 1], p, x, y, q);
      assert EditAt(longer[i], longer[i + 1], p, x, y, q + [c]);
    }
  }

  lemma ScriptThen(steps: seq<string>, a: string, b: string, c: string) returns (longer: seq<string>)
    requires Script(steps, a, b) && OneEdit(b, c)
    ensures Script(longer, a, c) && |longer| == |steps| + 1
  {
    longer := steps + [c];
    assert forall i :: 0 <= i < |steps| ==> longer[i] == steps[i];
  }

  lemma InsertLast(steps: seq<string>, a: string, b: string) returns (longer: seq<string>)
    requires b != [] && Script(steps, a, Init(b))
    ensures Script(longer, a, b) && |longer| == |steps| + 1
  {
    assert EditAt(Init(b), b, Init(b), [], [Last(b)], []);
    longer := ScriptThen(steps, a, Init(b), b);
  }

  lemma DeleteLast(steps: seq<string>, a: string, b: string) returns (longer: seq<string>)
    requires a != [] && Script(steps, Init(a), b)
    ensures Script(longer, a, b) && |longer| == |steps| + 1
  {
    longer := ScriptBefore(steps, Init(a), b, Last(a));
    assert Init(a) + [Last(a)] == a;
    assert EditAt(b + [Last(a)], b, b, [Last(a)], [], []);
    longer := ScriptThen(longer, a, b + [Last(a)], b);
  }

  lemma KeepOrSubstituteLast(steps: seq<string>, a: string, b: string) returns (longer: seq<string>)
    requires a != [] && b != [] && Script(steps, Init(a), Init(b))
    ensures Script(longer, a, b) && |longer| == |steps| + Differ(Last(a), Last(b))
  {
    longer := ScriptBefore(steps, Init(a), Init(b), Last(a));
    assert Init(a) + [Last(a)] == a;
    if Last(a) == Last(b) {
      assert Init(b) + [Last(a)] == b;
    } else {
      assert EditAt(Init(b) + [Last(a)], b, Init(b), [Last(a)], [Last(b)], []);
      longer := ScriptThen(longer, a, Init(b) + [Last(a)], b);
    }
  }

  lemma {:induction false} ShortestScript(a: string, b: string) returns (steps: seq<string>)
    ensures Script(steps, a, b) && |steps| == Dist(a, b) + 1
    decreases |a| + |b|
  {
    CellNonNegative(a, b, |a|, |b|);
    if a != [] && b != [] {
      DistByLast(a, b);
    }
    if a == [] && b == [] {
      steps := [a];
    } else if b != [] && (a == [] || Dist(a, b) == Dist(a, Init(b)) + 1) {
      steps := ShortestScript(a, Init(b));
      steps := InsertLast(steps, a, b);
    } else if b == [] || Dist(a, b) == Dist(Init(a), b) + 1 {
      steps := ShortestScript(Init(a), b);
      steps := DeleteLast(steps, a, b);
    } else {
      steps := ShortestScript(Init(a), Init(b));
      steps := KeepOrSubstituteLast(steps, a, b);
    }
  }

  /** The distance is the number of edits in a shortest script. */
  lemma DistIsShortestScript(a: string, b: string)
    ensures exists steps :: Script(steps, a, b) && |steps| == Dist(a, b) + 1
    ensures forall steps :: Script(steps, a, b) ==> |steps| >= Dist(a, b) + 1
  {
    var steps := ShortestScript(a, b);
    forall other | Script(other, a, b)
      ensures |other| >= Dist(a, b) + 1
    {
      NoScriptIsShorter(other, a, b);
    }
  }

  /** No edit is needed exactly when the strings are equal. */
  lemma DistZero(a: string, b: string)
    ensures Dist(a, b) == 0 <==> a == b
  {
    CellToSelf(a, |a|);
    if Dist(a, b) == 0 {
      var steps := ShortestScript(a, b);
    }
  }
}
