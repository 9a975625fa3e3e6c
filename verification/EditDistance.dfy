/** The edit distance between two kill-chains, computed by a table, and why it is a
    metric. */
module EditDistance {
  function Min(x: nat, y: nat): nat {
    if x < y then x else y
  }

  function Max(x: nat, y: nat): nat {
    if x < y then y else x
  }

  function Cost<T(==)>(x: T, y: T): nat {
    if x == y then 0 else 1
  }

  function Init<T>(a: seq<T>): seq<T>
    requires a != []
  {
    a[..|a| - 1]
  }

  function Last<T>(a: seq<T>): T
    requires a != []
  {
    a[|a| - 1]
  }

  /** The recurrence the table is filled by. */
  function Distance<T(==)>(a: seq<T>, b: seq<T>): nat
    decreases |a| + |b|
  {
    if a == [] then |b|
    else if b == [] then |a|
    else Min(Min(Distance(Init(a), b) + 1, Distance(a, Init(b)) + 1),
             Distance(Init(a), Init(b)) + Cost(Last(a), Last(b)))
  }

  // --- the table --------------------------------------------------------------------------------

  /** What a cell of the table must hold: the distance of two prefixes. */
  ghost function Cell<T>(a: seq<T>, b: seq<T>, i: nat, j: nat): nat
    requires i <= |a| && j <= |b|
  {
    Distance(a[..i], b[..j])
  }

  lemma NextCell<T>(a: seq<T>, b: seq<T>, i: nat, j: nat)
    requires 1 <= i <= |a| && 1 <= j <= |b|
    ensures Cell(a, b, i, j) ==
              Min(Min(Cell(a, b, i - 1, j) + 1, Cell(a, b, i, j - 1) + 1),
                  Cell(a, b, i - 1, j - 1) + Cost(a[i - 1], b[j - 1]))
  {
    assert Init(a[..i]) == a[..i - 1] && Init(b[..j]) == b[..j - 1];
  }

  lemma EdgeCells<T>(a: seq<T>, b: seq<T>)
    ensures forall i: nat | i <= |a| :: Cell(a, b, i, 0) == i
    ensures forall j: nat | j <= |b| :: Cell(a, b, 0, j) == j
    ensures Cell(a, b, |a|, |b|) == Distance(a, b)
  {
    assert a[..|a|] == a && b[..|b|] == b;
  }

  method SequenceEditDistance<T(==)>(a: seq<T>, b: seq<T>) returns (d: nat)
    ensures d == Distance(a, b)
  {
    hide Cell;
    EdgeCells(a, b);
    var m, n := |a|, |b|;
    var dp := new nat[m + 1, n + 1]((i, j) => 0);
    for i := 0 to m + 1
      invariant forall x: nat | x < i :: dp[x, 0] == x
    {
      dp[i, 0] := i;
    }
    for j := 0 to n + 1
      invariant forall x: nat | x <= m :: dp[x, 0] == x
      invariant forall y: nat | y < j :: dp[0, y] == y
    {
      dp[0, j] := j;
    }
    for i := 1 to m + 1
      invariant forall x: nat | x <= m :: dp[x, 0] == x
      invariant forall x: nat, y: nat | x < i && y <= n :: dp[x, y] == Cell(a, b, x, y)
    {
      for j := 1 to n + 1
        invariant forall x: nat | x <= m :: dp[x, 0] == x
        invariant forall x: nat, y: nat | x < i && y <= n :: dp[x, y] == Cell(a, b, x, y)
        invariant forall y: nat | y < j :: dp[i, y] == Cell(a, b, i, y)
      {
        NextCell(a, b, i, j);
        var cost := if a[i - 1] == b[j - 1] then 0 else 1;
        dp[i, j] := Min(Min(dp[i - 1, j] + 1, dp[i, j - 1] + 1), dp[i - 1, j - 1] + cost);
      }
    }
    d := dp[m, n];
  }

  // --- it is a metric ------------------------------------------------------------------------------

  lemma {:induction false} Symmetric<T>(a: seq<T>, b: seq<T>)
    ensures Distance(a, b) == Distance(b, a)
    decreases |a| + |b|
  {
    if a != [] && b != [] {
      Symmetric(Init(a), b);
      Symmetric(a, Init(b));
      Symmetric(Init(a), Init(b));
    }
  }

  /** The distance lies between the difference of the lengths and the larger one. */
  lemma {:induction false} Bounds<T>(a: seq<T>, b: seq<T>)
    ensures |a| <= |b| + Distance(a, b) && |b| <= |a| + Distance(a, b)
    ensures Distance(a, b) <= Max(|a|, |b|)
    decreases |a| + |b|
  {
    if a != [] && b != [] {
      Bounds(Init(a), b);
      Bounds(a, Init(b));
      Bounds(Init(a), Init(b));
    }
  }

  lemma {:induction false} ZeroIffEqual<T>(a: seq<T>, b: seq<T>)
    ensures Distance(a, b) == 0 <==> a == b
    decreases |a| + |b|
  {
    if a != [] && b != [] {
      ZeroIffEqual(Init(a), Init(b));
      assert a == Init(a) + [Last(a)] && b == Init(b) + [Last(b)];
      if a == b {
        assert Init(a) == Init(b);
      }
    }
  }

  /** Dropping a last element costs at most one. */
  lemma OneLess<T>(a: seq<T>, b: seq<T>)
    requires a != []
    ensures Distance(a, b) <= Distance(Init(a), b) + 1
  {
    Bounds(Init(a), b);
  }

  lemma OneMore<T>(a: seq<T>, b: seq<T>)
    requires b != []
    ensures Distance(a, b) <= Distance(a, Init(b)) + 1
  {
    Bounds(a, Init(b));
  }

  lemma {:induction false} Triangle<T>(a: seq<T>, b: seq<T>, c: seq<T>)
    ensures Distance(a, c) <= Distance(a, b) + Distance(b, c)
    decreases |a| + |b| + |c|
  {
    Bounds(b, c);
    Bounds(a, b);
    Bounds(a, c);
    if a != [] && b != [] && c != [] {
      OneLess(a, c);
      OneMore(a, c);
      Triangle(Init(a), b, c);
      Triangle(a, b, Init(c));
      Triangle(a, Init(b), c);
      Triangle(a, Init(b), Init(c));
      Triangle(Init(a), Init(b), c);
      Triangle(Init(a), Init(b), Init(c));
    }
  }

  // --- it counts edits -------------------------------------------------------------------------------

  /** One insertion, deletion or substitution at any place. */
  ghost predicate OneEdit<T(!new)>(a: seq<T>, b: seq<T>) {
    || (exists i, x :: 0 <= i <= |a| && b == a[..i] + [x] + a[i..])
    || (exists i :: 0 <= i < |a| && b == a[..i] + a[i + 1..])
    || (exists i, x :: 0 <= i < |a| && b == a[..i] + [x] + a[i + 1..])
  }

  /** Steps from one sequence to another, each an edit. */
  ghost predicate Editing<T(!new)>(steps: seq<seq<T>>, a: seq<T>, b: seq<T>) {
    && steps != [] && steps[0] == a && steps[|steps| - 1] == b
    && forall i | 0 <= i < |steps| - 1 :: OneEdit(steps[i], steps[i + 1])
  }

  lemma SameLast<T>(a: seq<T>, b: seq<T>)
    requires a != [] && b != [] && Last(a) == Last(b)
    ensures Distance(a, b) <= Distance(Init(a), Init(b))
  {
  }

  lemma {:induction false} SharedTail<T>(a: seq<T>, b: seq<T>, tail: seq<T>)
    ensures Distance(a + tail, b + tail) <= Distance(a, b)
  {
    hide Distance;
    if tail == [] {
      assert a + tail == a && b + tail == b;
    } else {
      SharedTail(a, b, Init(tail));
      assert Init(a + tail) == a + Init(tail) && Init(b + tail) == b + Init(tail);
      SameLast(a + tail, b + tail);
    }
  }

  lemma OneInserted<T>(front: seq<T>, x: T)
    ensures Distance(front, front + [x]) <= 1
  {
    hide Distance;
    ZeroIffEqual(front, front);
    assert Init(front + [x]) == front;
    OneMore(front, front + [x]);
  }

  lemma OneReplaced<T>(front: seq<T>, x: T, y: T)
    ensures Distance(front + [x], front + [y]) <= 1
  {
    ZeroIffEqual(front, front);
    var left, right := front + [x], front + [y];
    assert Init(left) == front && Init(right) == front && left != [] && right != [];
    assert Distance(left, right) <= Distance(Init(left), Init(right)) + Cost(Last(left), Last(right));
  }

  lemma InsertIsClose<T>(a: seq<T>, i: nat, x: T)
    requires i <= |a|
    ensures Distance(a, a[..i] + [x] + a[i..]) <= 1
  {
    hide Distance;
    OneInserted(a[..i], x);
    SharedTail(a[..i], a[..i] + [x], a[i..]);
    assert a == a[..i] + a[i..];
  }

  lemma ReplaceIsClose<T>(a: seq<T>, i: nat, x: T)
    requires i < |a|
    ensures Distance(a, a[..i] + [x] + a[i + 1..]) <= 1
  {
    hide Distance;
    OneReplaced(a[..i], a[i], x);
    SharedTail(a[..i] + [a[i]], a[..i] + [x], a[i + 1..]);
    assert a == a[..i] + [a[i]] + a[i + 1..];
  }

  /** An edit changes the distance by at most one. */
  lemma EditIsClose<T(!new)>(a: seq<T>, b: seq<T>)
    requires OneEdit(a, b)
    ensures Distance(a, b) <= 1
  {
    hide Distance;
    if i, x :| 0 <= i <= |a| && b == a[..i] + [x] + a[i..] {
      InsertIsClose(a, i, x);
    } else if i :| 0 <= i < |a| && b == a[..i] + a[i + 1..] {
      assert b[..i] == a[..i] && b[i..] == a[i + 1..];
      assert a == b[..i] + [a[i]] + b[i..];
      InsertIsClose(b, i, a[i]);
      Symmetric(a, b);
    } else {
      var i, x :| 0 <= i < |a| && b == a[..i] + [x] + a[i + 1..];
      ReplaceIsClose(a, i, x);
    }
  }

  /** No way of editing is shorter than the distance. */
  lemma {:induction false} NoFewerEdits<T(!new)>(steps: seq<seq<T>>, a: seq<T>, b: seq<T>)
    requires Editing(steps, a, b)
    ensures Distance(a, b) <= |steps| - 1
  {
    if |steps| == 1 {
      ZeroIffEqual(a, b);
    } else {
      var init := Init(steps);
      assert OneEdit(steps[|steps| - 2], steps[|steps| - 2 + 1]);
      forall i | 0 <= i < |init| - 1 ensures OneEdit(init[i], init[i + 1]) {
        assert OneEdit(steps[i], steps[i + 1]);
      }
      NoFewerEdits(init, a, Last(init));
      EditIsClose(Last(init), b);
      Triangle(a, Last(init), b);
    }
  }

  lemma Onward<T(!new)>(steps: seq<seq<T>>, a: seq<T>, b: seq<T>, c: seq<T>)
    requires Editing(steps, a, b) && OneEdit(b, c)
    ensures Editing(steps + [c], a, c)
  {
    var more := steps + [c];
    forall i | 0 <= i < |more| - 1 ensures OneEdit(more[i], more[i + 1]) {
      if i < |steps| - 1 {
        assert OneEdit(steps[i], steps[i + 1]);
      }
    }
  }

  /** Editing in front of a shared last element. */
  function Followed<T>(steps: seq<seq<T>>, x: T): seq<seq<T>> {
    seq(|steps|, i requires 0 <= i < |steps| => steps[i] + [x])
  }

  lemma AroundFollowed<T>(a: seq<T>, i: nat, j: nat, middle: seq<T>, x: T)
    requires i <= j <= |a|
    ensures (a + [x])[..i] + middle + (a + [x])[j..] == a[..i] + middle + a[j..] + [x]
  {
  }

  lemma EditFollowed<T(!new)>(a: seq<T>, b: seq<T>, x: T)
    requires OneEdit(a, b)
    ensures OneEdit(a + [x], b + [x])
  {
    if i, y :| 0 <= i <= |a| && b == a[..i] + [y] + a[i..] {
      AroundFollowed(a, i, i, [y], x);
    } else if i :| 0 <= i < |a| && b == a[..i] + a[i + 1..] {
      AroundFollowed(a, i, i + 1, [], x);
      assert a[..i] + [] == a[..i] && (a + [x])[..i] + [] == (a + [x])[..i];
    } else {
      var i, y :| 0 <= i < |a| && b == a[..i] + [y] + a[i + 1..];
      AroundFollowed(a, i, i + 1, [y], x);
    }
  }

  lemma EditingFollowed<T(!new)>(steps: seq<seq<T>>, a: seq<T>, b: seq<T>, x: T)
    requires Editing(steps, a, b)
    ensures Editing(Followed(steps, x), a + [x], b + [x])
  {
    forall i | 0 <= i < |steps| - 1 ensures OneEdit(Followed(steps, x)[i], Followed(steps, x)[i + 1]) {
      EditFollowed(steps[i], steps[i + 1], x);
    }
  }

  lemma DropsLast<T(!new)>(a: seq<T>)
    requires a != []
    ensures OneEdit(a, Init(a))
  {
    assert Init(a) == a[..|a| - 1] + a[|a| - 1 + 1..];
  }

  lemma AddsLast<T(!new)>(a: seq<T>, x: T)
    ensures OneEdit(a, a + [x])
  {
    assert a + [x] == a[..|a|] + [x] + a[|a|..];
  }

  lemma ReplacesLast<T(!new)>(a: seq<T>, x: T, y: T)
    ensures OneEdit(a + [x], a + [y])
  {
    assert a + [y] == (a + [x])[..|a|] + [y] + (a + [x])[|a| + 1..];
  }

  lemma {:induction false} DropAll<T(!new)>(a: seq<T>) returns (steps: seq<seq<T>>)
    ensures Editing(steps, a, []) && |steps| - 1 == |a|
  {
    if a == [] {
      steps := [a];
    } else {
      var rest := DropAll(Init(a));
      DropsLast(a);
      steps := [a] + rest;
      forall i | 0 <= i < |steps| - 1 ensures OneEdit(steps[i], steps[i + 1]) {
        if i > 0 {
          assert OneEdit(rest[i - 1], rest[i - 1 + 1]);
        }
      }
    }
  }

  lemma {:induction false} AddAll<T(!new)>(b: seq<T>) returns (steps: seq<seq<T>>)
    ensures Editing(steps, [], b) && |steps| - 1 == |b|
  {
    if b == [] {
      steps := [b];
    } else {
      steps := AddAll(Init(b));
      AddsLast(Init(b), Last(b));
      assert b == Init(b) + [Last(b)];
      Onward(steps, [], Init(b), b);
      steps := steps + [b];
    }
  }

  /** Some way of editing takes exactly as many steps as the distance. */
  lemma {:induction false} EnoughEdits<T(!new)>(a: seq<T>, b: seq<T>) returns (steps: seq<seq<T>>)
    ensures Editing(steps, a, b) && |steps| - 1 == Distance(a, b)
    decreases |a| + |b|
  {
    if a == [] {
      steps := AddAll(b);
    } else if b == [] {
      steps := DropAll(a);
    } else {
      assert a == Init(a) + [Last(a)] && b == Init(b) + [Last(b)];
      if Distance(a, b) == Distance(Init(a), b) + 1 {
        var rest := EnoughEdits(Init(a), b);
        DropsLast(a);
        steps := Before(a, rest, Init(a), b);
      } else if Distance(a, b) == Distance(a, Init(b)) + 1 {
        steps := EnoughEdits(a, Init(b));
        AddsLast(Init(b), Last(b));
        Onward(steps, a, Init(b), b);
        steps := steps + [b];
      } else {
        steps := EnoughEdits(Init(a), Init(b));
        EditingFollowed(steps, Init(a), Init(b), Last(a));
        steps := Followed(steps, Last(a));
        if Last(a) != Last(b) {
          ReplacesLast(Init(b), Last(a), Last(b));
          Onward(steps, a, Init(b) + [Last(a)], b);
          steps := steps + [b];
        }
      }
    }
  }

  lemma Before<T(!new)>(a: seq<T>, rest: seq<seq<T>>, b: seq<T>, c: seq<T>) returns (steps: seq<seq<T>>)
    requires OneEdit(a, b) && Editing(rest, b, c)
    ensures Editing(steps, a, c) && |steps| == |rest| + 1
  {
    steps := [a] + rest;
    forall i | 0 <= i < |steps| - 1 ensures OneEdit(steps[i], steps[i + 1]) {
      if i > 0 {
        assert OneEdit(rest[i - 1], rest[i - 1 + 1]);
      }
    }
  }

  /** The distance is the least number of edits turning one sequence into the other. */
  lemma LeastEdits<T(!new)>(a: seq<T>, b: seq<T>, k: nat)
    ensures Distance(a, b) <= k ==> exists steps :: Editing(steps, a, b) && |steps| - 1 <= k
    ensures (exists steps :: Editing(steps, a, b) && |steps| - 1 <= k) ==> Distance(a, b) <= k
  {
    if Distance(a, b) <= k {
      var steps := EnoughEdits(a, b);
    }
    if steps :| Editing(steps, a, b) && |steps| - 1 <= k {
      NoFewerEdits(steps, a, b);
    }
  }

  // --- similarity ----------------------------------------------------------------------------------------

  lemma Share(d: nat, n: nat)
    requires d <= n && n > 0
    ensures var s := 1.0 - d as real / n as real;
            && 0.0 <= s <= 1.0 && (s == 1.0 <==> d == 0) && (s == 0.0 <==> d == n)
            && s * n as real == n as real - d as real
  {
    var x, y := d as real, n as real;
    var q := x / y;
    assert q * y == x;
    Between(q, x, y);
    assert (1.0 - q) * y == y - q * y;
  }

  lemma Sign(q: real, y: real)
    requires y > 0.0
    ensures (q * y >= 0.0 <==> q >= 0.0) && (q * y == 0.0 <==> q == 0.0)
  {
  }

  lemma Between(q: real, x: real, y: real)
    requires 0.0 <= x <= y && y > 0.0 && q * y == x
    ensures 0.0 <= q <= 1.0 && (q == 0.0 <==> x == 0.0) && (q == 1.0 <==> x == y)
  {
    assert (1.0 - q) * y == y - x;
    Sign(q, y);
    Sign(1.0 - q, y);
  }

  /** Between 0 and 1, and 1 exactly for equal chains. */
  method NormalizedChainSimilarity<T(==)>(a: seq<T>, b: seq<T>) returns (s: real)
    ensures 0.0 <= s <= 1.0
    ensures s == 1.0 <==> a == b
    ensures s == 0.0 <==> Distance(a, b) == Max(|a|, |b|) && a != b
    ensures s * Max(|a|, |b|) as real == Max(|a|, |b|) as real - Distance(a, b) as real
  {
    hide Distance;
    var maxLen := Max(|a|, |b|);
    ZeroIffEqual(a, b);
    Bounds(a, b);
    if maxLen == 0 {
      return 1.0;
    }
    var d := SequenceEditDistance(a, b);
    Share(d, maxLen);
    s := 1.0 - d as real / maxLen as real;
  }
}
