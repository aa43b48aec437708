/** Word and character error counting: the edit-distance table with its shortcut on equal
    items, and the traceback that splits the distance into substitutions, deletions and insertions. */
module Levenshtein {

  import opened Options

  /** One step of an edit script, which rewrites a sequence from left to right. */
  datatype Edit<T> = Keep | Replace(with: T) | Remove | Add(item: T)

  function Init<T>(s: seq<T>): seq<T>
    requires s != []
  {
    s[..|s| - 1]
  }

  function Final<T>(s: seq<T>): T
    requires s != []
  {
    s[|s| - 1]
  }

  /** What a script makes of a sequence; it must account for every item. */
  function Apply<T>(script: seq<Edit<T>>, s: seq<T>): Option<seq<T>>
    decreases |script|, 1
  {
    if script == [] then
      if s == [] then Some([]) else None
    else Then(Init(script), Final(script), s)
  }

  function Then<T>(rest: seq<Edit<T>>, e: Edit<T>, s: seq<T>): Option<seq<T>>
    decreases |rest|, 2
  {
    match e
    case Keep => if s == [] then None else Append(Apply(rest, Init(s)), Final(s))
    case Replace(x) => if s == [] then None else Append(Apply(rest, Init(s)), x)
    case Remove => if s == [] then None else Apply(rest, Init(s))
    case Add(x) => Append(Apply(rest, s), x)
  }

  function Append<T>(s: Option<seq<T>>, x: T): Option<seq<T>> {
    match s
    case None => None
    case Some(items) => Some(items + [x])
  }

  /** The four kinds of step, counted. */
  datatype Counts = Counts(keeps: nat, substitutions: nat, deletions: nat, insertions: nat) {
    function Cost(): nat {
      substitutions + deletions + insertions
    }
  }

  function Count<T>(c: Counts, e: Edit<T>): Counts {
    match e
    case Keep => c.(keeps := c.keeps + 1)
    case Replace(_) => c.(substitutions := c.substitutions + 1)
    case Remove => c.(deletions := c.deletions + 1)
    case Add(_) => c.(insertions := c.insertions + 1)
  }

  function Tally<T>(script: seq<Edit<T>>): Counts {
    if script == [] then Counts(0, 0, 0, 0)
    else Count(Tally(Init(script)), Final(script))
  }

  /** The table's recurrence: equal final items are matched without looking at alternatives. */
  function Dist<T(==)>(l: seq<T>, r: seq<T>): nat
    decreases |l| + |r|
  {
    if l == [] then |r|
    else if r == [] then |l|
    else if Final(l) == Final(r) then Dist(Init(l), Init(r))
    else 1 + Min(Dist(Init(l), Init(r)), Min(Dist(Init(l), r), Dist(l, Init(r))))
  }

  function Min(a: nat, b: nat): nat {
    if a <= b then a else b
  }

  lemma {:induction false} Symmetric<T>(l: seq<T>, r: seq<T>)
    ensures Dist(l, r) == Dist(r, l)
    decreases |l| + |r|
  {
    if l != [] && r != [] {
      Symmetric(Init(l), Init(r));
      Symmetric(Init(l), r);
      Symmetric(l, Init(r));
    }
  }

  /** Dropping or adding a final item changes the distance by at most one. */
  lemma {:induction false} Lipschitz<T>(l: seq<T>, r: seq<T>)
    requires l != []
    ensures Dist(Init(l), r) <= Dist(l, r) + 1
    ensures Dist(l, r) <= Dist(Init(l), r) + 1
    decreases |l| + |r|, 0
  {
    if r != [] {
      Lipschitz(l, Init(r));
      LipschitzRight(Init(l), r);
    }
  }

  lemma {:induction false} LipschitzRight<T>(l: seq<T>, r: seq<T>)
    requires r != []
    ensures Dist(l, Init(r)) <= Dist(l, r) + 1
    ensures Dist(l, r) <= Dist(l, Init(r)) + 1
    decreases |l| + |r|, 1
  {
    Symmetric(l, r);
    Symmetric(l, Init(r));
    Lipschitz(r, l);
  }

  /** No script does it for less than the recurrence says, the shortcut included. */
  lemma {:induction false} NoCheaperScript<T>(script: seq<Edit<T>>, l: seq<T>, r: seq<T>)
    requires Apply(script, l) == Some(r)
    ensures Dist(l, r) <= Tally(script).Cost()
    decreases |script|
  {
    if script != [] {
      var rest := Init(script);
      match Final(script) {
        case Keep =>
          NoCheaperScript(rest, Init(l), Init(r));
        case Replace(x) =>
          NoCheaperScript(rest, Init(l), Init(r));
        case Remove =>
          NoCheaperScript(rest, Init(l), r);
          Lipschitz(l, r);
        case Add(x) =>
          NoCheaperScript(rest, l, Init(r));
          LipschitzRight(l, r);
      }
    }
  }

  datatype Op = Unset | D | I | S | M

  /** The recorded operation: the least of (cost, letter), letters in alphabetical order. */
  function Choice<T(==)>(l: seq<T>, r: seq<T>): Op {
    if l == [] then if r == [] then Unset else I
    else if r == [] then D
    else if Final(l) == Final(r) then M
    else
      var s, d, i := Dist(Init(l), Init(r)), Dist(Init(l), r), Dist(l, Init(r));
      if d <= s && d <= i then D else if i <= s then I else S
  }

  predicate IsStep(op: Op) {
    op == S || op == D || op == I
  }

  /** The cost of ending with this operation on differing final items. */
  function Via<T(==)>(l: seq<T>, r: seq<T>, op: Op): nat
    requires l != [] && r != [] && IsStep(op)
  {
    1 + match op case S => Dist(Init(l), Init(r)) case D => Dist(Init(l), r) case I => Dist(l, Init(r))
  }

  function Letter(op: Op): char
    requires IsStep(op)
  {
    match op case S => 'S' case D => 'D' case I => 'I'
  }

  /** On differing items the recorded operation has the least cost, and among those the first letter. */
  lemma ChoiceIsLeast<T>(l: seq<T>, r: seq<T>, op: Op)
    requires l != [] && r != [] && Final(l) != Final(r) && IsStep(op)
    ensures var chosen := Choice(l, r);
      && IsStep(chosen) && Dist(l, r) == Via(l, r, chosen)
      && (Via(l, r, chosen) < Via(l, r, op)
          || (Via(l, r, chosen) == Via(l, r, op) && Letter(chosen) <= Letter(op)))
  {
  }

  /** The script the traceback walks. */
  function Trace<T(==)>(l: seq<T>, r: seq<T>): seq<Edit<T>>
    decreases |l| + |r|
  {
    match Choice(l, r)
    case Unset => []
    case M => Trace(Init(l), Init(r)) + [Keep]
    case S => Trace(Init(l), Init(r)) + [Replace(Final(r))]
    case D => Trace(Init(l), r) + [Remove]
    case I => Trace(l, Init(r)) + [Add(Final(r))]
  }

  lemma ApplyStep<T>(rest: seq<Edit<T>>, e: Edit<T>, s: seq<T>)
    ensures Apply(rest + [e], s) == Then(rest, e, s)
  {
  }

  lemma TallyStep<T>(rest: seq<Edit<T>>, e: Edit<T>)
    ensures Tally(rest + [e]) == Count(Tally(rest), e)
  {
  }

  /** The walked script turns one sequence into the other. */
  lemma {:induction false} TraceApplies<T>(l: seq<T>, r: seq<T>)
    ensures Apply(Trace(l, r), l) == Some(r)
    decreases |l| + |r|
  {
    hide Dist;
    if r != [] { assert Init(r) + [Final(r)] == r; }
    match Choice(l, r)
    case Unset =>
    case M =>
      TraceApplies(Init(l), Init(r));
      ApplyStep(Trace(Init(l), Init(r)), Edit<T>.Keep, l);
    case S =>
      TraceApplies(Init(l), Init(r));
      ApplyStep(Trace(Init(l), Init(r)), Replace(Final(r)), l);
    case D =>
      TraceApplies(Init(l), r);
      ApplyStep(Trace(Init(l), r), Edit<T>.Remove, l);
    case I =>
      TraceApplies(l, Init(r));
      ApplyStep(Trace(l, Init(r)), Add(Final(r)), l);
  }

  lemma ChoiceCosts<T>(l: seq<T>, r: seq<T>)
    ensures match Choice(l, r)
            case Unset => Dist(l, r) == 0
            case M => Dist(l, r) == Dist(Init(l), Init(r))
            case S => Dist(l, r) == 1 + Dist(Init(l), Init(r))
            case D => Dist(l, r) == 1 + Dist(Init(l), r)
            case I => Dist(l, r) == 1 + Dist(l, Init(r))
  {
  }

  /** The walked script costs exactly what the table says. */
  lemma {:induction false} TraceCosts<T>(l: seq<T>, r: seq<T>)
    ensures Tally(Trace(l, r)).Cost() == Dist(l, r)
    decreases |l| + |r|
  {
    ChoiceCosts(l, r);
    hide Dist;
    match Choice(l, r)
    case Unset =>
    case M =>
      TraceCosts(Init(l), Init(r));
      TallyStep(Trace(Init(l), Init(r)), Edit<T>.Keep);
    case S =>
      TraceCosts(Init(l), Init(r));
      TallyStep(Trace(Init(l), Init(r)), Replace(Final(r)));
    case D =>
      TraceCosts(Init(l), r);
      TallyStep(Trace(Init(l), r), Edit<T>.Remove);
    case I =>
      TraceCosts(l, Init(r));
      TallyStep(Trace(l, Init(r)), Add(Final(r)));
  }

  /** Every item of the left side is kept, replaced or removed; every item of the right side is
      kept, a replacement, or added. */
  lemma {:induction false} ScriptLengths<T>(script: seq<Edit<T>>, l: seq<T>, r: seq<T>)
    requires Apply(script, l) == Some(r)
    ensures var c := Tally(script);
            |l| == c.keeps + c.substitutions + c.deletions && |r| == c.keeps + c.substitutions + c.insertions
    decreases |script|
  {
    if script != [] {
      match Final(script) {
        case Keep => ScriptLengths(Init(script), Init(l), Init(r));
        case Replace(_) => ScriptLengths(Init(script), Init(l), Init(r));
        case Remove => ScriptLengths(Init(script), Init(l), r);
        case Add(_) => ScriptLengths(Init(script), l, Init(r));
      }
    }
  }

  /** The counts the scorer reports. */
  ghost predicate IsScore<T(!new)>(l: seq<T>, r: seq<T>, distance: nat,
                                   substitutions: nat, deletions: nat, insertions: nat)
  {
    // the distance is attained, with these counts, and no script attains less
    && (exists script: seq<Edit<T>> ::
          Apply(script, l) == Some(r) && Tally(script).(keeps := 0) == Counts(0, substitutions, deletions, insertions))
    && (forall script: seq<Edit<T>> :: Apply(script, l) == Some(r) ==> distance <= Tally(script).Cost())
    && substitutions + deletions + insertions == distance
    // what the report relies on
    && deletions - insertions == |l| - |r|
    && substitutions + deletions <= |l| && substitutions + insertions <= |r|
  }

  lemma TraceIsScore<T(!new)>(l: seq<T>, r: seq<T>)
    ensures var c := Tally(Trace(l, r)); IsScore(l, r, Dist(l, r), c.substitutions, c.deletions, c.insertions)
  {
    TraceApplies(l, r);
    TraceCosts(l, r);
    ScriptLengths(Trace(l, r), l, r);
    forall script: seq<Edit<T>> | Apply(script, l) == Some(r) ensures Dist(l, r) <= Tally(script).Cost() {
      NoCheaperScript(script, l, r);
    }
  }

  // The table is indexed by prefix lengths.

  function CostAt<T(==)>(left: seq<T>, right: seq<T>, i: nat, j: nat): nat
    requires i <= |left| && j <= |right|
  {
    Dist(left[..i], right[..j])
  }

  function OpAt<T(==)>(left: seq<T>, right: seq<T>, i: nat, j: nat): Op
    requires i <= |left| && j <= |right|
  {
    Choice(left[..i], right[..j])
  }

  lemma Borders<T>(left: seq<T>, right: seq<T>)
    ensures forall i :: 0 <= i <= |left| ==>
              CostAt(left, right, i, 0) == i && OpAt(left, right, i, 0) == if i > 0 then D else Unset
    ensures forall j :: 0 <= j <= |right| ==>
              CostAt(left, right, 0, j) == j && OpAt(left, right, 0, j) == if j > 0 then I else Unset
  {
  }

  lemma Recurrence<T>(left: seq<T>, right: seq<T>, i: nat, j: nat)
    requires 0 < i <= |left| && 0 < j <= |right|
    ensures var s, d := CostAt(left, right, i - 1, j - 1), CostAt(left, right, i - 1, j);
            var n := CostAt(left, right, i, j - 1);
            && CostAt(left, right, i, j) == (if left[i - 1] == right[j - 1] then s else 1 + Min(s, Min(d, n)))
            && OpAt(left, right, i, j) ==
                 if left[i - 1] == right[j - 1] then M else if d <= s && d <= n then D else if n <= s then I else S
  {
    var l, r := left[..i], right[..j];
    assert Init(l) == left[..i - 1] && Init(r) == right[..j - 1] && Final(l) == left[i - 1] && Final(r) == right[j - 1];
  }

  /** The least of (cost, letter) among substitution, deletion and insertion. */
  function Least(s: nat, d: nat, n: nat): (nat, Op) {
    if d <= s && d <= n then (d, D) else if n <= s then (n, I) else (s, S)
  }

  /** Fresh tables with the first column and the first row set. */
  method Prepare<T(==)>(left: seq<T>, right: seq<T>) returns (cost: array2<nat>, op: array2<Op>)
    ensures fresh(cost) && fresh(op)
    ensures cost.Length0 == op.Length0 == |left| + 1 && cost.Length1 == op.Length1 == |right| + 1
    ensures forall p :: 0 <= p <= |left| ==>
              cost[p, 0] == CostAt(left, right, p, 0) && op[p, 0] == OpAt(left, right, p, 0)
    ensures forall q :: 0 <= q <= |right| ==>
              cost[0, q] == CostAt(left, right, 0, q) && op[0, q] == OpAt(left, right, 0, q)
  {
    hide CostAt, OpAt;
    Borders(left, right);
    var rows, cols := |left|, |right|;
    cost := new nat[rows + 1, cols + 1]((_, _) => 0);
    op := new Op[rows + 1, cols + 1]((_, _) => Unset);
    for i := 1 to rows + 1
      invariant cost[0, 0] == 0 && op[0, 0] == Unset
      invariant forall p :: 1 <= p < i ==> cost[p, 0] == p && op[p, 0] == D
    {
      cost[i, 0], op[i, 0] := i, D;
    }
    for j := 1 to cols + 1
      invariant forall p :: 0 <= p <= rows ==>
                  cost[p, 0] == CostAt(left, right, p, 0) && op[p, 0] == OpAt(left, right, p, 0)
      invariant forall q :: 0 <= q < j ==>
                  cost[0, q] == CostAt(left, right, 0, q) && op[0, q] == OpAt(left, right, 0, q)
    {
      cost[0, j], op[0, j] := j, I;
    }
  }

  method Fill<T(==)>(left: seq<T>, right: seq<T>) returns (cost: array2<nat>, op: array2<Op>)
    ensures cost.Length0 == op.Length0 == |left| + 1 && cost.Length1 == op.Length1 == |right| + 1
    ensures forall i, j :: 0 <= i <= |left| && 0 <= j <= |right| ==>
              cost[i, j] == CostAt(left, right, i, j) && op[i, j] == OpAt(left, right, i, j)
  {
    hide CostAt, OpAt;
    var rows, cols := |left|, |right|;
    cost, op := Prepare(left, right);
    for i := 1 to rows + 1
      invariant forall p :: 0 <= p <= rows ==>
                  cost[p, 0] == CostAt(left, right, p, 0) && op[p, 0] == OpAt(left, right, p, 0)
      invariant forall p, q :: 0 <= p < i && 0 <= q <= cols ==>
                  cost[p, q] == CostAt(left, right, p, q) && op[p, q] == OpAt(left, right, p, q)
    {
      for j := 1 to cols + 1
        invariant forall p :: 0 <= p <= rows ==>
                    cost[p, 0] == CostAt(left, right, p, 0) && op[p, 0] == OpAt(left, right, p, 0)
        invariant forall p, q :: 0 <= p < i && 0 <= q <= cols ==>
                    cost[p, q] == CostAt(left, right, p, q) && op[p, q] == OpAt(left, right, p, q)
        invariant forall q :: 0 <= q < j ==>
                    cost[i, q] == CostAt(left, right, i, q) && op[i, q] == OpAt(left, right, i, q)
      {
        Recurrence(left, right, i, j);
        if left[i - 1] == right[j - 1] {
          cost[i, j], op[i, j] := cost[i - 1, j - 1], M;
        } else {
          var (least, letter) := Least(cost[i - 1, j - 1] + 1, cost[i - 1, j] + 1, cost[i, j - 1] + 1);
          cost[i, j], op[i, j] := least, letter;
        }
      }
    }
  }

  function TallyAt<T(==)>(left: seq<T>, right: seq<T>, i: nat, j: nat): Counts
    requires i <= |left| && j <= |right|
  {
    Tally(Trace(left[..i], right[..j]))
  }

  /** What one step of the walk takes off the counts still to come. */
  lemma WalkStep<T>(left: seq<T>, right: seq<T>, i: nat, j: nat)
    requires i <= |left| && j <= |right|
    ensures match OpAt(left, right, i, j)
            case Unset => i == 0 && j == 0 && TallyAt(left, right, i, j) == Counts(0, 0, 0, 0)
            case M =>
              i > 0 && j > 0 && TallyAt(left, right, i, j) == Count(TallyAt(left, right, i - 1, j - 1), Edit<T>.Keep)
            case S =>
              && i > 0 && j > 0
              && TallyAt(left, right, i, j) == Count(TallyAt(left, right, i - 1, j - 1), Replace(right[j - 1]))
            case D => i > 0 && TallyAt(left, right, i, j) == Count(TallyAt(left, right, i - 1, j), Edit<T>.Remove)
            case I => j > 0 && TallyAt(left, right, i, j) == Count(TallyAt(left, right, i, j - 1), Add(right[j - 1]))
  {
    hide Dist;
    var l, r := left[..i], right[..j];
    assert i > 0 ==> Init(l) == left[..i - 1];
    assert j > 0 ==> Init(r) == right[..j - 1];
    match Choice(l, r)
    case Unset =>
    case M => TallyStep(Trace(Init(l), Init(r)), Edit<T>.Keep);
    case S => TallyStep(Trace(Init(l), Init(r)), Replace(Final(r)));
    case D => TallyStep(Trace(Init(l), r), Edit<T>.Remove);
    case I => TallyStep(Trace(l, Init(r)), Add(Final(r)));
  }

  method Walk<T(==)>(left: seq<T>, right: seq<T>, op: array2<Op>)
      returns (substitutions: nat, deletions: nat, insertions: nat)
    requires op.Length0 == |left| + 1 && op.Length1 == |right| + 1
    requires forall i, j :: 0 <= i <= |left| && 0 <= j <= |right| ==> op[i, j] == OpAt(left, right, i, j)
    ensures TallyAt(left, right, |left|, |right|).(keeps := 0) == Counts(0, substitutions, deletions, insertions)
  {
    hide TallyAt, OpAt;
    substitutions, deletions, insertions := 0, 0, 0;
    var i, j := |left|, |right|;
    ghost var whole := TallyAt(left, right, i, j);
    while i != 0 || j != 0
      invariant 0 <= i <= |left| && 0 <= j <= |right|
      invariant var c := TallyAt(left, right, i, j);
                && whole.substitutions == substitutions + c.substitutions
                && whole.deletions == deletions + c.deletions
                && whole.insertions == insertions + c.insertions
      decreases i + j
    {
      WalkStep(left, right, i, j);
      match op[i, j] {
        case S => substitutions := substitutions + 1; i := i - 1; j := j - 1;
        case D => deletions := deletions + 1; i := i - 1;
        case I => insertions := insertions + 1; j := j - 1;
        case _ => i := i - 1; j := j - 1;
      }
    }
    WalkEnds(left, right);
  }

  method Levenshtein<T(==, !new)>(left: seq<T>, right: seq<T>)
      returns (distance: nat, substitutions: nat, deletions: nat, insertions: nat)
    ensures IsScore(left, right, distance, substitutions, deletions, insertions)
    ensures Tally(Trace(left, right)).(keeps := 0) == Counts(0, substitutions, deletions, insertions)
  {
    var cost, op := Fill(left, right);
    substitutions, deletions, insertions := Walk(left, right, op);
    distance := cost[|left|, |right|];
    WholeTable(left, right);
    TraceIsScore(left, right);
  }

  lemma WholeTable<T>(left: seq<T>, right: seq<T>)
    ensures CostAt(left, right, |left|, |right|) == Dist(left, right)
    ensures TallyAt(left, right, |left|, |right|) == Tally(Trace(left, right))
  {
    assert left[..|left|] == left && right[..|right|] == right;
  }

  lemma WalkEnds<T>(left: seq<T>, right: seq<T>)
    ensures TallyAt(left, right, 0, 0) == Counts(0, 0, 0, 0)
  {
  }
}
