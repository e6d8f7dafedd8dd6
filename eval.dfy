/** The tree-walking evaluator of parser.cpp (run, run_aux, run_if, run_do,
    run_while, run_prnt, run_right, run_expr, run_unary, run_binary,
    run_id_lval, run_int) as specification functions over a machine state:
    the scope stack `IDs_`, the input `?` reads with its read position, the numbers
    printed so far and the error state. The methods of `Interp.Parser` are
    proved equal to them. */
module Eval {
  import Types
  import opened Syntax

  /** IDs_: one map from identifier id to value per open scope level. */
  type Store = seq<map<nat, int>>

  /** `input` is everything std::cin will deliver and `read` how many
      numbers of it have been consumed. */
  datatype Machine = Machine(ids: Store, input: seq<int>, read: nat, output: seq<int>, err: ErrState)

  /** A `while (1)` loop of the source runs as long as its condition holds;
      the model gives every loop a budget of passes and reports OutOfFuel
      when a loop would need more. */
  datatype Outcome = Done(m: Machine) | OutOfFuel

  /** The machine state only moves forward: errors are only added, output
      only appended, input only consumed. */
  predicate Progress(m: Machine, m2: Machine) {
    Extends(m.err, m2.err) && m.output <= m2.output &&
    m2.input == m.input && m.read <= m2.read
  }

  lemma ProgressTransitive(m1: Machine, m2: Machine, m3: Machine)
    requires Progress(m1, m2) && Progress(m2, m3)
    ensures Progress(m1, m3)
  {
  }

  /** The scan of IDs_ from level i upward that run_int and run_id_lval
      share: the first level binding x, or |ids| if there is none. */
  function FirstBinding(ids: Store, x: nat, i: nat): (r: nat)
    requires i <= |ids|
    ensures i <= r <= |ids|
    ensures r < |ids| ==> x in ids[r]
    ensures forall k :: i <= k < r ==> x !in ids[k]
    decreases |ids| - i
  {
    if i == |ids| then i else if x in ids[i] then i else FirstBinding(ids, x, i + 1)
  }

  /** std::vector::resize: cut to n levels, or add empty levels up to n. */
  function Resize(ids: Store, n: nat): (r: Store)
    ensures |r| == n
    ensures forall k :: 0 <= k < n && k < |ids| ==> r[k] == ids[k]
    ensures forall k :: |ids| <= k < n ==> r[k] == map[]
  {
    if |ids| >= n then ids[..n] else ids + seq(n - |ids|, _ => map[])
  }

  /** The converted value of a C++ bool. */
  function IntVal(b: bool): int { if b then 1 else 0 }

  function Abs(a: int): nat { if a < 0 then -a else a }

  /** C++ integer division, which rounds toward zero. By zero it is undefined
      in the source; the model gives 0. */
  function TruncDiv(a: int, b: int): (q: int)
    ensures b == 0 ==> q == 0
  {
    if b == 0 then 0
    else if (a >= 0) == (b > 0) then Abs(a) / Abs(b)
    else -(Abs(a) / Abs(b))
  }

  /** Euclidean division of naturals, the facts the proofs below need. */
  lemma NatDivision(n: int, d: int)
    requires n >= 0 && d > 0
    ensures n == (n / d) * d + n % d && 0 <= n % d < d && n / d >= 0
  {
  }

  /** The quotient rounds toward zero: its magnitude is the quotient of the
      magnitudes, and the remainder is smaller than the divisor in magnitude
      and is 0 or has the sign of the dividend. */
  lemma TruncDivRemainder(a: int, b: int)
    requires b != 0
    ensures Abs(TruncDiv(a, b)) == Abs(a) / Abs(b)
    ensures Abs(a - TruncDiv(a, b) * b) < Abs(b)
    ensures a - TruncDiv(a, b) * b == 0 || (a - TruncDiv(a, b) * b > 0 <==> a > 0)
  {
    var A: int, B: int := Abs(a), Abs(b);
    var Q: int, R: int := A / B, A % B;
    NatDivision(A, B);
    var q := TruncDiv(a, b);
    if a >= 0 && b > 0 {
      assert q == Q && a == A && b == B;
      assert a - q * b == R;
    } else if a < 0 && b < 0 {
      assert q == Q && a == -A && b == -B;
      assert q * b == -(Q * B);
      assert a - q * b == -R;
    } else if a >= 0 {
      assert q == -Q && a == A && b == -B;
      assert q * b == Q * B;
      assert a - q * b == R;
    } else {
      assert q == -Q && a == -A && b == B;
      assert q * b == -(Q * B);
      assert a - q * b == -R;
    }
  }

  /** The strict binary operators of run_binary, applied to both values. */
  function Apply(op: ExprOp, v1: int, v2: int): (r: int)
    requires op != Types.Or && op != Types.And
    ensures op !in {Types.Addition, Types.Substraction, Types.Multiplication, Types.Division} ==>
              r == 0 || r == 1
    ensures op == Types.Equal ==> (r == 1 <==> v1 == v2)
    ensures op == Types.Less ==> (r == 1 <==> v1 < v2)
  {
    match op
    case Equal => IntVal(v1 == v2)
    case NotEqual => IntVal(v1 != v2)
    case Less => IntVal(v1 < v2)
    case LessOrEqual => IntVal(v1 <= v2)
    case GreaterOrEqual => IntVal(v1 >= v2)
    case Greater => IntVal(v1 > v2)
    case Addition => v1 + v2
    case Substraction => v1 - v2
    case Multiplication => v1 * v2
    case Division => TruncDiv(v1, v2)
  }

  /** What evaluating an expression may do to the machine: read input and
      record errors, nothing else. */
  predicate ExprEffect(m: Machine, r: (int, Machine)) {
    r.1.ids == m.ids && r.1.output == m.output && Progress(m, r.1) &&
    (m.err.Poisoned() ==> r == (0, m))
  }

  /** run_expr: dispatch to run_unary, run_binary or run_int. */
  function EvalExpr(a: Ast, m: Machine): (r: (int, Machine))
    ensures ExprEffect(m, r)
    decreases a, 1
  {
    if m.err.Poisoned() then (0, m)
    else match a
      case UnOp(_, _) => EvalUnary(a, m)
      case BinOp(_, _, _) => EvalBinary(a, m)
      case _ => EvalInt(a, m)
  }

  /** run_unary */
  function EvalUnary(a: Ast, m: Machine): (r: (int, Machine))
    requires a.UnOp?
    ensures ExprEffect(m, r)
    ensures a.uop == Types.LogicalNegation && !m.err.Poisoned() ==> r.0 == 0 || r.0 == 1
    decreases a, 0
  {
    if m.err.Poisoned() then (0, m)
    else
      var (v, m1) := EvalExpr(a.operand, m);
      if a.uop == Types.LogicalNegation then (IntVal(v == 0), m1) else (-v, m1)
  }

  /** run_binary: `||` and `&&` evaluate their right operand only when the
      left one does not decide; every other operator evaluates both, left
      first. */
  function EvalBinary(a: Ast, m: Machine): (r: (int, Machine))
    requires a.BinOp?
    ensures ExprEffect(m, r)
    ensures a.bop !in {Types.Addition, Types.Substraction, Types.Multiplication, Types.Division}
            ==> r.0 == 0 || r.0 == 1
    decreases a, 0
  {
    if m.err.Poisoned() then (0, m)
    else
      var (v1, m1) := EvalExpr(a.lhs, m);
      if a.bop == Types.Or then
        if v1 != 0 then (1, m1)
        else var (v2, m2) := EvalExpr(a.rhs, m1); (IntVal(v2 != 0), m2)
      else if a.bop == Types.And then
        if v1 == 0 then (0, m1)
        else var (v2, m2) := EvalExpr(a.rhs, m1); (IntVal(v2 != 0), m2)
      else
        var (v2, m2) := EvalExpr(a.rhs, m1);
        (Apply(a.bop, v1, v2), m2)
  }

  /** run_int: the leaves. An identifier is read from the first level that
      binds it; an unbound one is an error and reads as 0. `?` takes the
      next input number, or 0 once the input is exhausted. Every other node
      reads as 0. */
  function EvalInt(a: Ast, m: Machine): (r: (int, Machine))
    ensures r.1.ids == m.ids && r.1.output == m.output && Progress(m, r.1)
    ensures a.Id? ==> (FirstBinding(m.ids, a.id, 0) < |m.ids| <==> r.1.err == m.err)
    ensures a.Id? && FirstBinding(m.ids, a.id, 0) < |m.ids| ==> r.0 == m.ids[FirstBinding(m.ids, a.id, 0)][a.id]
    ensures a.Id? && FirstBinding(m.ids, a.id, 0) == |m.ids| ==> r == (0, m.(err := m.err.Add(MsgUndefined)))
    decreases a, 0
  {
    match a
    case Id(x) =>
      var j := FirstBinding(m.ids, x, 0);
      if j < |m.ids| then (m.ids[j][x], m) else (0, m.(err := m.err.Add(MsgUndefined)))
    case IntLit(v) => (v, m)
    case ScanExpr =>
      if m.read < |m.input| then (m.input[m.read], m.(read := m.read + 1)) else (0, m)
    case BoolLit(b) => (IntVal(b), m)
    case _ => (0, m)
  }

  /** run_id_lval: the level holding x's binding and the store, in which a
      missing binding has been created with value 0 in level lvl - 1. It
      never fails, and afterwards x is found where it was put. */
  function Lval(ids: Store, x: nat, lvl: nat): (r: (Store, nat))
    requires 1 <= lvl <= |ids|
    ensures |r.0| == |ids| && r.1 < |ids|
    ensures r.1 == FirstBinding(r.0, x, 0)
    ensures FirstBinding(ids, x, 0) < |ids| ==> r == (ids, FirstBinding(ids, x, 0))
    ensures FirstBinding(ids, x, 0) == |ids| ==> r.1 == lvl - 1 && r.0[lvl - 1][x] == 0
    ensures forall j :: 0 <= j < |ids| && j != lvl - 1 ==> r.0[j] == ids[j]
    ensures r.0[lvl - 1] == ids[lvl - 1] || (x !in ids[lvl - 1] && r.0[lvl - 1] == ids[lvl - 1][x := 0])
  {
    var j := FirstBinding(ids, x, 0);
    if j < |ids| then (ids, j)
    else
      var level: map<nat, int> := ids[lvl - 1][x := 0];
      var r0 := ids[lvl - 1 := level];
      assert FirstBinding(r0, x, 0) == lvl - 1 by {
        FirstBindingAt(r0, x, lvl - 1);
      }
      (r0, lvl - 1)
  }

  /** A level that binds x with no earlier level binding it is the result of
      the scan. */
  lemma {:induction false} FirstBindingAt(ids: Store, x: nat, j: nat)
    requires j < |ids| && x in ids[j]
    requires forall k :: 0 <= k < j ==> x !in ids[k]
    ensures FirstBinding(ids, x, 0) == j
  {
    FirstBindingFrom(ids, x, 0, j);
  }

  lemma {:induction false} FirstBindingFrom(ids: Store, x: nat, i: nat, j: nat)
    requires i <= j < |ids| && x in ids[j]
    requires forall k :: i <= k < j ==> x !in ids[k]
    ensures FirstBinding(ids, x, i) == j
    decreases j - i
  {
    if i < j {
      FirstBindingFrom(ids, x, i + 1, j);
    }
  }

  /** The statements whose run needs a level to bind in (run_id_lval writes
      to IDs_[lvl - 1]). */
  predicate WritesStore(s: Ast) {
    s.Id? || s.Assign? || (s.Print? && (s.val.Id? || s.val.Assign?))
  }

  /** The statements run_aux passes to run_prnt. */
  predicate IsSimple(s: Ast) {
    !(s.Scope? || s.If? || s.Loop? || s.Empty?)
  }

  /** What running a statement at level lvl does to the machine's shape:
      the stack is back at lvl levels and the state has moved forward. */
  predicate StmtEffect(m: Machine, n: nat, r: Outcome) {
    r.Done? ==> |r.m.ids| == n && Progress(m, r.m)
  }

  /** run_right: a bare identifier or an assignment goes through
      run_id_lval (an assignment locates or creates its target before
      evaluating the right side); anything else is an expression. */
  function ExecRight(a: Ast, lvl: nat, m: Machine): (r: (int, Machine))
    requires lvl == |m.ids| && (lvl >= 1 || !(a.Id? || a.Assign?))
    ensures StmtEffect(m, lvl, Done(r.1))
    ensures r.1.output == m.output
    ensures m.err.Poisoned() ==> r == (0, m)
    decreases a, 2
  {
    if m.err.Poisoned() then (0, m)
    else match a
      case Id(x) =>
        var (ids1, j) := Lval(m.ids, x, lvl);
        (ids1[j][x], m.(ids := ids1))
      case Assign(x, rhs) =>
        var (ids1, j) := Lval(m.ids, x, lvl);
        var (v, m2) := EvalExpr(rhs, m.(ids := ids1));
        var level: map<nat, int> := m2.ids[j][x := v];
        (v, m2.(ids := m2.ids[j := level]))
      case _ => EvalExpr(a, m)
  }

  /** run_prnt: `print` appends the value to the output, whether or not its
      evaluation recorded an error. */
  function ExecPrnt(s: Ast, lvl: nat, m: Machine): (r: Machine)
    requires lvl == |m.ids| && (lvl >= 1 || !WritesStore(s))
    ensures StmtEffect(m, lvl, Done(r))
    ensures m.err.Poisoned() ==> r == m
    ensures !m.err.Poisoned() && s.Print? ==> r.output == m.output + [ExecRight(s.val, lvl, m).0]
    ensures !s.Print? ==> r.output == m.output
    decreases s, 3
  {
    if m.err.Poisoned() then m
    else if s.Print? then
      var (v, m1) := ExecRight(s.val, lvl, m);
      m1.(output := m1.output + [v])
    else ExecRight(s, lvl, m).1
  }

  /** run_aux at level lvl, with |IDs_| == lvl as the source keeps it. A
      scope pushes a level for its statements and pops it afterwards. */
  function Exec(s: Ast, lvl: nat, m: Machine, fuel: nat): (r: Outcome)
    requires lvl == |m.ids| && (lvl >= 1 || !WritesStore(s))
    ensures StmtEffect(m, lvl, r)
    ensures m.err.Poisoned() ==> r == Done(m)
    decreases s, 4, 0
  {
    if m.err.Poisoned() then Done(m)
    else match s
      case Scope(_) =>
        var m1 := m.(ids := Resize(m.ids, lvl + 1));
        (match ExecSeq(s, 0, lvl + 1, m1, fuel)
         case OutOfFuel => OutOfFuel
         case Done(m2) => Done(m2.(ids := Resize(m2.ids, lvl))))
      case If(_, _, _) => ExecIf(s, lvl, m, fuel)
      case Loop(Do, _, _) => ExecDo(s, lvl, m, fuel)
      case Loop(While, _, _) => ExecWhile(s, lvl, m, fuel)
      case Empty => Done(m)
      case _ => Done(ExecPrnt(s, lvl, m))
  }

  /** The for loop of run_aux over a scope's statements, from the i-th on. */
  function ExecSeq(s: Ast, i: nat, n: nat, m: Machine, fuel: nat): (r: Outcome)
    requires s.Scope? && i <= |s.stmts| && n == |m.ids| && n >= 1
    ensures StmtEffect(m, n, r)
    decreases s, 3, |s.stmts| - i
  {
    if i == |s.stmts| then Done(m)
    else match Exec(s.stmts[i], n, m, fuel)
      case OutOfFuel => OutOfFuel
      case Done(m1) => ExecSeq(s, i + 1, n, m1, fuel)
  }

  /** run_if: the condition is evaluated in a fresh level, which is cleared
      again before the chosen branch runs in it. */
  function ExecIf(s: Ast, lvl: nat, m: Machine, fuel: nat): (r: Outcome)
    requires s.If? && lvl == |m.ids|
    ensures StmtEffect(m, lvl, r)
    ensures m.err.Poisoned() ==> r == Done(m)
    decreases s, 3, 0
  {
    if m.err.Poisoned() then Done(m)
    else
      var m1 := m.(ids := Resize(m.ids, lvl + 1));
      var (c, m2) := EvalExpr(s.cond, m1);
      var m3 := m2.(ids := m2.ids[lvl := map[]]);
      match Exec(if c != 0 then s.thenBody else s.elseBody, lvl + 1, m3, fuel)
      case OutOfFuel => OutOfFuel
      case Done(m4) => Done(m4.(ids := Resize(m4.ids, lvl)))
  }

  /** run_do */
  function ExecDo(s: Ast, lvl: nat, m: Machine, fuel: nat): (r: Outcome)
    requires s.Loop? && lvl == |m.ids|
    ensures StmtEffect(m, lvl, r)
    ensures m.err.Poisoned() ==> r == Done(m)
    decreases s, 3, 0
  {
    if m.err.Poisoned() then Done(m) else DoPasses(s, lvl, m, fuel, fuel)
  }

  /** The `while (1)` loop of run_do with k passes left: the body runs first,
      the level is cleared, and the loop ends at the first false condition. */
  function DoPasses(s: Ast, lvl: nat, m: Machine, fuel: nat, k: nat): (r: Outcome)
    requires s.Loop? && lvl <= |m.ids| <= lvl + 1
    ensures StmtEffect(m, lvl, r)
    decreases s, 2, k
  {
    if k == 0 then OutOfFuel
    else
      var m1 := m.(ids := Resize(m.ids, lvl + 1));
      match Exec(s.body, lvl + 1, m1, fuel)
      case OutOfFuel => OutOfFuel
      case Done(m2) =>
        var m3 := m2.(ids := m2.ids[lvl := map[]]);
        var (c, m4) := EvalExpr(s.cond, m3);
        if c == 0 then Done(m4.(ids := Resize(m4.ids, lvl)))
        else DoPasses(s, lvl, m4, fuel, k - 1)
  }

  /** One pass of run_do's loop, unfolded. */
  lemma DoPassesStep(s: Ast, lvl: nat, m: Machine, fuel: nat, k: nat, m2: Machine, c: int, m4: Machine)
    requires s.Loop? && lvl <= |m.ids| <= lvl + 1 && k > 0
    requires Exec(s.body, lvl + 1, m.(ids := Resize(m.ids, lvl + 1)), fuel) == Done(m2)
    requires (c, m4) == EvalExpr(s.cond, m2.(ids := m2.ids[lvl := map[]]))
    ensures c == 0 ==> DoPasses(s, lvl, m, fuel, k) == Done(m4.(ids := Resize(m4.ids, lvl)))
    ensures c != 0 ==> DoPasses(s, lvl, m, fuel, k) == DoPasses(s, lvl, m4, fuel, k - 1)
  {
  }

  /** run_while */
  function ExecWhile(s: Ast, lvl: nat, m: Machine, fuel: nat): (r: Outcome)
    requires s.Loop? && lvl == |m.ids|
    ensures StmtEffect(m, lvl, r)
    ensures m.err.Poisoned() ==> r == Done(m)
    decreases s, 3, 0
  {
    if m.err.Poisoned() then Done(m) else WhilePasses(s, lvl, m, fuel, fuel)
  }

  /** The `while (1)` loop of run_while with k passes left: the condition is
      evaluated first, the level is cleared, and the body runs only while the
      condition holds. */
  function WhilePasses(s: Ast, lvl: nat, m: Machine, fuel: nat, k: nat): (r: Outcome)
    requires s.Loop? && lvl <= |m.ids| <= lvl + 1
    ensures StmtEffect(m, lvl, r)
    decreases s, 2, k
  {
    if k == 0 then OutOfFuel
    else
      var m1 := m.(ids := Resize(m.ids, lvl + 1));
      var (c, m2) := EvalExpr(s.cond, m1);
      var m3 := m2.(ids := m2.ids[lvl := map[]]);
      if c == 0 then Done(m3.(ids := Resize(m3.ids, lvl)))
      else match Exec(s.body, lvl + 1, m3, fuel)
        case OutOfFuel => OutOfFuel
        case Done(m4) => WhilePasses(s, lvl, m4, fuel, k - 1)
  }

  /** One pass of run_while's loop that runs the body, unfolded. */
  lemma WhilePassesStep(s: Ast, lvl: nat, m: Machine, fuel: nat, k: nat, c: int, m2: Machine, m4: Machine)
    requires s.Loop? && lvl <= |m.ids| <= lvl + 1 && k > 0
    requires (c, m2) == EvalExpr(s.cond, m.(ids := Resize(m.ids, lvl + 1)))
    requires c != 0
    requires Exec(s.body, lvl + 1, m2.(ids := m2.ids[lvl := map[]]), fuel) == Done(m4)
    ensures WhilePasses(s, lvl, m, fuel, k) == WhilePasses(s, lvl, m4, fuel, k - 1)
  {
  }

  /** run: -1 without running when parsing failed, -2 when running recorded
      an error, 0 otherwise; the stack starts empty. */
  function RunProgram(root: Ast, m: Machine, fuel: nat): (r: (int, Outcome))
    requires !WritesStore(root)
    ensures r.0 == -1 <==> m.err.Poisoned()
    ensures m.err.Poisoned() ==> r.1 == Done(m)
    ensures r.1.Done? && r.0 != -1 ==> (r.0 == 0 <==> !r.1.m.err.Poisoned())
    ensures r.1.Done? && !m.err.Poisoned() && r.1.m.err.Poisoned() ==> r.0 == -2
    ensures r.0 == -1 || r.0 == -2 || r.0 == 0
    ensures r.1.Done? ==> Progress(m, r.1.m)
    ensures r.1.Done? && !m.err.Poisoned() ==> |r.1.m.ids| == 0
  {
    if m.err.Poisoned() then (-1, Done(m))
    else
      var out := Exec(root, 0, m.(ids := []), fuel);
      if out.Done? && out.m.err.Poisoned() then (-2, out) else (0, out)
  }
}
