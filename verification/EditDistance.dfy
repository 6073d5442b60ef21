/** Command-name suggestions: the two-row edit distance and the nearest-command search. */
module EditDistance {
  import opened Wrappers

  // ---- Edit scripts: what an edit distance is about ----

  datatype Edit =
    | Keep(c: char)
    | Delete(c: char)
    | Insert(c: char)
    | Substitute(from: char, to: char)

  /** The text a script reads. */
  function Source(script: seq<Edit>): string {
    if script == [] then "" else
      Source(script[..|script| - 1]) +
      match script[|script| - 1]
      case Keep(c) => [c]
      case Delete(c) => [c]
      case Insert(_) => ""
      case Substitute(c, _) => [c]
  }

  /** The text a script writes. */
  function Target(script: seq<Edit>): string {
    if script == [] then "" else
      Target(script[..|script| - 1]) +
      match script[|script| - 1]
      case Keep(c) => [c]
      case Delete(_) => ""
      case Insert(c) => [c]
      case Substitute(_, c) => [c]
  }

  /** Every edit but Keep costs one. */
  function Cost(script: seq<Edit>): nat {
    if script == [] then 0
    else Cost(script[..|script| - 1]) + if script[|script| - 1].Keep? then 0 else 1
  }

  ghost predicate Rewrites(script: seq<Edit>, left: string, right: string) {
    Source(script) == left && Target(script) == right
  }

  // ---- The recursive distance ----

  function Min(a: nat, b: nat): nat {
    if a <= b then a else b
  }

  function Mismatch(a: char, b: char): nat {
    if a == b then 0 else 1
  }

  function Init(s: string): string
    requires s != ""
  {
    s[..|s| - 1]
  }

  function Last(s: string): char
    requires s != ""
  {
    s[|s| - 1]
  }

  function Distance(left: string, right: string): nat
    decreases |left| + |right|
  {
    if left == "" then |right|
    else if right == "" then |left|
    else
      Min(Min(Distance(Init(left), right) + 1, Distance(left, Init(right)) + 1),
          Distance(Init(left), Init(right)) + Mismatch(Last(left), Last(right)))
  }

  lemma {:induction false} ScriptStep(script: seq<Edit>, e: Edit)
    ensures Source(script + [e])
         == Source(script) + match e { case Keep(c) => [c] case Delete(c) => [c] case Insert(_) => "" case Substitute(c, _) => [c] }
    ensures Target(script + [e])
         == Target(script) + match e { case Keep(c) => [c] case Delete(_) => "" case Insert(c) => [c] case Substitute(_, c) => [c] }
    ensures Cost(script + [e]) == Cost(script) + if e.Keep? then 0 else 1
  {
    assert (script + [e])[..|script + [e]| - 1] == script;
  }

  /** Some script rewrites left into right at exactly the distance. */
  lemma {:induction false} DistanceIsAttained(left: string, right: string) returns (script: seq<Edit>)
    ensures Rewrites(script, left, right) && Cost(script) == Distance(left, right)
    decreases |left| + |right|
  {
    if left == "" && right == "" {
      script := [];
    } else if left == "" || (right != "" && Distance(left, right) == Distance(left, Init(right)) + 1) {
      assert right == Init(right) + [Last(right)];
      var rest := DistanceIsAttained(left, Init(right));
      ScriptStep(rest, Insert(Last(right)));
      script := rest + [Insert(Last(right))];
    } else if right == "" || Distance(left, right) == Distance(Init(left), right) + 1 {
      assert left == Init(left) + [Last(left)];
      var rest := DistanceIsAttained(Init(left), right);
      ScriptStep(rest, Delete(Last(left)));
      script := rest + [Delete(Last(left))];
    } else {
      assert left == Init(left) + [Last(left)] && right == Init(right) + [Last(right)];
      var rest := DistanceIsAttained(Init(left), Init(right));
      var e := if Last(left) == Last(right) then Keep(Last(left)) else Substitute(Last(left), Last(right));
      ScriptStep(rest, e);
      script := rest + [e];
    }
  }

  /** Dropping or adding one character at the end changes the distance by at most one. */
  lemma {:induction false} DistanceStep(left: string, right: string)
    ensures right != "" ==> Distance(left, right) <= Distance(left, Init(right)) + 1
    ensures left != "" ==> Distance(left, right) <= Distance(Init(left), right) + 1
    ensures left != "" && right != "" ==>
      Distance(left, right) <= Distance(Init(left), Init(right)) + Mismatch(Last(left), Last(right))
    decreases |left| + |right|
  {
    if left == "" || right == "" {
      if left != "" { assert Init(left) == "" || Distance(Init(left), right) == |left| - 1; }
      if right != "" { assert Distance(left, Init(right)) == |right| - 1; }
    }
  }

  /** No script rewrites left into right for less. */
  lemma {:induction false} DistanceIsLeast(script: seq<Edit>, left: string, right: string)
    requires Rewrites(script, left, right)
    ensures Distance(left, right) <= Cost(script)
    decreases |script|
  {
    if script != [] {
      var rest := script[..|script| - 1];
      DistanceIsLeast(rest, Source(rest), Target(rest));
      DistanceStep(left, right);
      match script[|script| - 1]
      case Keep(c) => assert Init(left) == Source(rest) && Init(right) == Target(rest);
      case Delete(c) => assert Init(left) == Source(rest) && right == Target(rest);
      case Insert(c) => assert left == Source(rest) && Init(right) == Target(rest);
      case Substitute(c, d) => assert Init(left) == Source(rest) && Init(right) == Target(rest);
    }
  }

  // ---- The distance is a metric ----

  lemma {:induction false} DistanceSymmetric(left: string, right: string)
    ensures Distance(left, right) == Distance(right, left)
    decreases |left| + |right|
  {
    if left != "" && right != "" {
      DistanceSymmetric(Init(left), right);
      DistanceSymmetric(left, Init(right));
      DistanceSymmetric(Init(left), Init(right));
    }
  }

  lemma {:induction false} DistanceZero(left: string, right: string)
    ensures Distance(left, right) == 0 <==> left == right
    decreases |left| + |right|
  {
    if left != "" && right != "" {
      DistanceZero(Init(left), Init(right));
      assert left == Init(left) + [Last(left)] && right == Init(right) + [Last(right)];
    }
  }

  lemma {:induction false} DistanceTriangle(a: string, b: string, c: string)
    ensures Distance(a, c) <= Distance(a, b) + Distance(b, c)
    decreases |a| + |b| + |c|
  {
    DistanceStep(a, c);
    if a != "" && (b == "" || Distance(a, b) == Distance(Init(a), b) + 1) {
      DistanceEmpty(a);
      DistanceTriangle(Init(a), b, c);
    } else if c != "" && (b == "" || Distance(b, c) == Distance(b, Init(c)) + 1) {
      DistanceEmpty(c);
      DistanceTriangle(a, b, Init(c));
    } else if b != "" {
      TriangleThroughMiddle(a, b, c);
    }
  }

  lemma {:induction false} DistanceEmpty(s: string)
    ensures Distance(s, "") == |s| == Distance("", s)
  {
  }

  /** The cases in which the last character of the middle string is written by one side and read by the other. */
  lemma {:induction false} TriangleThroughMiddle(a: string, b: string, c: string)
    requires b != ""
    requires a != "" ==> Distance(a, b) != Distance(Init(a), b) + 1
    requires c != "" ==> Distance(b, c) != Distance(b, Init(c)) + 1
    ensures Distance(a, c) <= Distance(a, b) + Distance(b, c)
    decreases |a| + |b| + |c|, 0
  {
    DistanceStep(a, c);
    var inserted := a == "" || Distance(a, b) == Distance(a, Init(b)) + 1;
    var deleted := c == "" || Distance(b, c) == Distance(Init(b), c) + 1;
    DistanceEmpty(b);
    DistanceEmpty(Init(b));
    if inserted && deleted {
      DistanceTriangle(a, Init(b), c);
    } else if inserted {
      DistanceTriangle(a, Init(b), Init(c));
    } else if deleted {
      DistanceTriangle(Init(a), Init(b), c);
    } else {
      DistanceTriangle(Init(a), Init(b), Init(c));
    }
  }

  // ---- The two-row loop ----

  lemma {:induction false} DistanceUnfold(a: string, b: string, above: nat, before: nat, corner: nat)
    requires a != "" && b != ""
    requires above == Distance(Init(a), b) && before == Distance(a, Init(b)) && corner == Distance(Init(a), Init(b))
    ensures Distance(a, b) == Min(Min(above + 1, before + 1), corner + Mismatch(Last(a), Last(b)))
  {
  }

  /** The recursive equation at one cell of the table, with its three neighbours named. */
  lemma DistanceCell(left: string, right: string, i: nat, j: nat, above: nat, before: nat, corner: nat)
    requires 1 <= i <= |left| && 1 <= j <= |right|
    requires above == Distance(left[..i - 1], right[..j])
    requires before == Distance(left[..i], right[..j - 1])
    requires corner == Distance(left[..i - 1], right[..j - 1])
    ensures Distance(left[..i], right[..j]) ==
      Min(Min(above + 1, before + 1), corner + Mismatch(left[i - 1], right[j - 1]))
  {
    hide Distance;
    var a, b := left[..i], right[..j];
    assert Init(a) == left[..i - 1];
    assert Init(b) == right[..j - 1];
    assert Last(a) == left[i - 1] && Last(b) == right[j - 1];
    DistanceUnfold(a, b, above, before, corner);
  }

  /** The first n + 1 cells of row i of the table. */
  ghost predicate IsRow(row: seq<nat>, left: string, right: string, i: nat, n: nat)
    requires i <= |left| && n <= |right|
  {
    |row| == n + 1 && forall j :: 0 <= j <= n ==> row[j] == Distance(left[..i], right[..j])
  }

  lemma FirstRow(left: string, right: string)
    ensures IsRow(seq(|right| + 1, index => index), left, right, 0, |right|)
  {
    assert left[..0] == "";
  }

  lemma FirstCell(left: string, right: string, i: nat)
    requires i <= |left|
    ensures IsRow([i], left, right, i, 0)
  {
    assert right[..0] == "";
    DistanceEmpty(left[..i]);
  }

  method ComputeEditDistance(left: string, right: string) returns (distance: nat)
    ensures distance == Distance(left, right)
  {
    hide Distance;
    var previous: seq<nat> := seq(|right| + 1, index => index);
    FirstRow(left, right);
    var leftIndex := 1;
    while leftIndex <= |left|
      invariant 1 <= leftIndex <= |left| + 1
      invariant IsRow(previous, left, right, leftIndex - 1, |right|)
    {
      var current: seq<nat> := [leftIndex];
      FirstCell(left, right, leftIndex);
      var rightIndex := 1;
      while rightIndex <= |right|
        invariant 1 <= rightIndex <= |right| + 1
        invariant IsRow(current, left, right, leftIndex, rightIndex - 1)
      {
        var cell := Min(Min(previous[rightIndex] + 1, current[rightIndex - 1] + 1),
                        previous[rightIndex - 1] + Mismatch(left[leftIndex - 1], right[rightIndex - 1]));
        DistanceCell(left, right, leftIndex, rightIndex, previous[rightIndex], current[rightIndex - 1], previous[rightIndex - 1]);
        current := current + [cell];
        rightIndex := rightIndex + 1;
      }
      previous := current;
      leftIndex := leftIndex + 1;
    }
    assert left[..|left|] == left && right[..|right|] == right;
    distance := previous[|right|];
  }

  // ---- The nearest command ----

  datatype NearestCommand = NearestCommand(command: string, distance: nat)

  /** The collation order used for ties is a strict order. */
  ghost predicate StrictOrder(before: (string, string) -> bool) {
    && (forall a :: !before(a, a))
    && (forall a, b, c :: before(a, b) && before(b, c) ==> before(a, c))
  }

  method FindNearestCommand(commands: seq<string>, token: string, maximumDistance: int,
                            lower: string -> string, before: (string, string) -> bool)
    returns (nearest: Option<NearestCommand>)
    ensures token == "" || token[0] == '-' ==> nearest.None?
    ensures token != "" && token[0] != '-' ==>
      (nearest.Some? <==> exists c :: c in commands && Distance(lower(token), lower(c)) <= maximumDistance)
    ensures nearest.Some? ==>
      && nearest.value.command in commands
      && nearest.value.distance == Distance(lower(token), lower(nearest.value.command)) <= maximumDistance
      && forall c :: c in commands ==> nearest.value.distance <= Distance(lower(token), lower(c))
    ensures nearest.Some? && StrictOrder(before) ==>
      forall c :: c in commands && Distance(lower(token), lower(c)) == nearest.value.distance ==>
        !before(c, nearest.value.command)
  {
    hide Distance;
    if token == "" || token[0] == '-' {
      return None;
    }
    nearest := None;
    for i := 0 to |commands|
      invariant nearest.None? ==> forall c :: c in commands[..i] ==> Distance(lower(token), lower(c)) > maximumDistance
      invariant nearest.Some? ==>
        && nearest.value.command in commands[..i]
        && nearest.value.distance == Distance(lower(token), lower(nearest.value.command)) <= maximumDistance
        && forall c :: c in commands[..i] ==> nearest.value.distance <= Distance(lower(token), lower(c))
      invariant nearest.Some? && StrictOrder(before) ==>
        forall c :: c in commands[..i] && Distance(lower(token), lower(c)) == nearest.value.distance ==>
          !before(c, nearest.value.command)
    {
      var command := commands[i];
      assert commands[..i + 1] == commands[..i] + [command];
      var distance := ComputeEditDistance(lower(token), lower(command));
      if distance <= maximumDistance
        && (nearest.None? || distance < nearest.value.distance
            || (distance == nearest.value.distance && before(command, nearest.value.command)))
      {
        nearest := Some(NearestCommand(command, distance));
      }
    }
    assert commands[..|commands|] == commands;
  }
}
