/** What the evaluator promises, proved about the specification functions of
    Eval (which the run methods of `Interp.Parser` are proved equal to):
    every identifier is bound in at most one level of IDs_, a run never
    changes which names the enclosing levels bind (so a name first assigned
    inside a block is gone when the block ends), an assignment is read back,
    and a few equivalences between statements. */
module EvalProps {
  import Types
  import opened Syntax
  import opened Eval

  // ----- the shape of IDs_ -----

  /** No identifier is bound in two levels. */
  predicate Unique(ids: Store) {
    forall x, i, j :: 0 <= i < j < |ids| && x in ids[i] ==> x !in ids[j]
  }

  /** From `a` to `b` the n lowest levels keep the names they bind, and
      uniqueness is kept. */
  predicate Kept(a: Store, b: Store, n: nat) {
    n <= |a| && n <= |b| && (forall k :: 0 <= k < n ==> b[k].Keys == a[k].Keys) &&
    (Unique(a) ==> Unique(b))
  }

  lemma KeptTransitive(a: Store, b: Store, c: Store, n: nat)
    requires Kept(a, b, n) && Kept(b, c, n)
    ensures Kept(a, c, n)
  {
  }

  lemma KeptWeaken(a: Store, b: Store, n: nat, n': nat)
    requires Kept(a, b, n) && n' <= n
    ensures Kept(a, b, n')
  {
  }

  /** Adding empty levels or cutting levels off keeps the levels that stay. */
  lemma ResizeKept(ids: Store, n: nat, size: nat)
    requires n <= |ids| && n <= size
    ensures Kept(ids, Resize(ids, size), n)
  {
    var r := Resize(ids, size);
    if Unique(ids) {
      forall x, i, j | 0 <= i < j < |r| && x in r[i]
        ensures x !in r[j]
      {
        if j >= |ids| {
          assert r[j] == map[];
        }
      }
    }
  }

  /** Clearing a level (`IDs_[lvl].clear()`) keeps the levels below it. */
  lemma ClearKept(ids: Store, j: nat)
    requires j < |ids|
    ensures Kept(ids, ids[j := map[]], j)
  {
  }

  /** The store after `x = v` writes x's binding in level j. */
  function Overwrite(ids: Store, j: nat, x: nat, v: int): (r: Store)
    requires j < |ids|
    ensures |r| == |ids| && x in r[j] && r[j][x] == v
  {
    var level: map<nat, int> := ids[j][x := v];
    ids[j := level]
  }

  /** Writing a name a level already binds changes no level's names. */
  lemma OverwriteKept(ids: Store, j: nat, x: nat, v: int)
    requires j < |ids| && x in ids[j]
    ensures Kept(ids, Overwrite(ids, j, x, v), |ids|)
  {
    var r := Overwrite(ids, j, x, v);
    forall k | 0 <= k < |ids| ensures r[k].Keys == ids[k].Keys {
      if k == j {
        assert r[k].Keys == ids[j].Keys + {x};
      }
    }
  }

  /** run_id_lval creates a binding only where none exists, so it keeps
      uniqueness and the levels below lvl - 1. */
  lemma LvalKept(ids: Store, x: nat, lvl: nat)
    requires 1 <= lvl <= |ids|
    ensures Kept(ids, Lval(ids, x, lvl).0, lvl - 1)
  {
    var r := Lval(ids, x, lvl).0;
    if FirstBinding(ids, x, 0) == |ids| && Unique(ids) {
      forall y, i, j | 0 <= i < j < |r| && y in r[i]
        ensures y !in r[j]
      {
        if y == x {
          assert i == lvl - 1 || x !in r[i];
          if i == lvl - 1 {
            assert r[j] == ids[j];
          }
        }
      }
    }
  }

  /** run_right keeps the levels below lvl - 1; without an identifier or an
      assignment it does not touch IDs_ at all. */
  lemma ExecRightKept(a: Ast, lvl: nat, m: Machine)
    requires lvl == |m.ids| && lvl >= 1
    ensures Kept(m.ids, ExecRight(a, lvl, m).1.ids, lvl - 1)
  {
    if !m.err.Poisoned() {
      match a
      case Id(x) =>
        LvalKept(m.ids, x, lvl);
      case Assign(x, rhs) =>
        AssignKept(x, rhs, lvl, m);
      case _ =>
    }
  }

  /** An assignment locates or creates its target, then overwrites it. */
  lemma AssignKept(x: nat, rhs: Ast, lvl: nat, m: Machine)
    requires lvl == |m.ids| && lvl >= 1 && !m.err.Poisoned()
    ensures Kept(m.ids, ExecRight(Assign(x, rhs), lvl, m).1.ids, lvl - 1)
  {
    var l := Lval(m.ids, x, lvl);
    LvalKept(m.ids, x, lvl);
    var p := EvalExpr(rhs, m.(ids := l.0));
    var ids2 := Overwrite(p.1.ids, l.1, x, p.0);
    assert ExecRight(Assign(x, rhs), lvl, m).1.ids == ids2;
    OverwriteKept(l.0, l.1, x, p.0);
    KeptWeaken(l.0, ids2, |l.0|, lvl - 1);
    KeptTransitive(m.ids, l.0, ids2, lvl - 1);
  }

  lemma ExecPrntKept(s: Ast, lvl: nat, m: Machine)
    requires lvl == |m.ids| && lvl >= 1
    ensures Kept(m.ids, ExecPrnt(s, lvl, m).ids, lvl - 1)
  {
    if !m.err.Poisoned() {
      if s.Print? {
        ExecRightKept(s.val, lvl, m);
      } else {
        ExecRightKept(s, lvl, m);
      }
    }
  }

  /** The statements that do not write the store leave IDs_ as it is. */
  lemma ExecPrntPure(s: Ast, lvl: nat, m: Machine)
    requires lvl == |m.ids| && !WritesStore(s)
    ensures ExecPrnt(s, lvl, m).ids == m.ids
  {
  }

  /** run_aux at level lvl keeps uniqueness and the names of the levels below
      lvl - 1; a statement that is no identifier, assignment or print of one
      keeps all lvl levels, so what a block binds is local to it. */
  lemma {:induction false} ExecKept(s: Ast, lvl: nat, m: Machine, fuel: nat)
    requires lvl == |m.ids| && (lvl >= 1 || !WritesStore(s))
    ensures var r := Exec(s, lvl, m, fuel);
            r.Done? ==> Kept(m.ids, r.m.ids, if WritesStore(s) then lvl - 1 else lvl)
    decreases s, 4, 0
  {
    var r := Exec(s, lvl, m, fuel);
    if !m.err.Poisoned() && r.Done? {
      match s
      case Scope(_) => ScopeKept(s, lvl, m, fuel);
      case If(_, _, _) => ExecIfKept(s, lvl, m, fuel);
      case Loop(Do, _, _) => DoPassesKept(s, lvl, m, fuel, fuel);
      case Loop(While, _, _) => WhilePassesKept(s, lvl, m, fuel, fuel);
      case Empty =>
      case _ =>
        if WritesStore(s) {
          ExecPrntKept(s, lvl, m);
        } else {
          ExecPrntPure(s, lvl, m);
        }
    }
  }

  /** A scope pushes a level for its statements and pops it again. */
  lemma {:induction false} ScopeKept(s: Ast, lvl: nat, m: Machine, fuel: nat)
    requires s.Scope? && lvl == |m.ids|
    ensures var r := ExecSeq(s, 0, lvl + 1, m.(ids := Resize(m.ids, lvl + 1)), fuel);
            r.Done? ==> Kept(m.ids, Resize(r.m.ids, lvl), lvl)
    decreases s, 3, |s.stmts| + 1
  {
    var m1 := m.(ids := Resize(m.ids, lvl + 1));
    var r := ExecSeq(s, 0, lvl + 1, m1, fuel);
    ResizeKept(m.ids, lvl, lvl + 1);
    ExecSeqKept(s, 0, lvl + 1, m1, fuel);
    ThenKept(m.ids, m1.ids, r, lvl);
    if r.Done? {
      PopKept(m.ids, r.m.ids, lvl);
    }
  }

  /** The statements of a scope at level n keep the n - 1 levels below it. */
  lemma {:induction false} ExecSeqKept(s: Ast, i: nat, n: nat, m: Machine, fuel: nat)
    requires s.Scope? && i <= |s.stmts| && n == |m.ids| && n >= 1
    ensures var r := ExecSeq(s, i, n, m, fuel);
            r.Done? ==> Kept(m.ids, r.m.ids, n - 1)
    decreases s, 3, |s.stmts| - i
  {
    if i < |s.stmts| {
      var r1 := Exec(s.stmts[i], n, m, fuel);
      if r1.Done? {
        ExecKept(s.stmts[i], n, m, fuel);
        KeptWeaken(m.ids, r1.m.ids, if WritesStore(s.stmts[i]) then n - 1 else n, n - 1);
        ExecSeqKept(s, i + 1, n, r1.m, fuel);
        var r := ExecSeq(s, i + 1, n, r1.m, fuel);
        if r.Done? {
          KeptTransitive(m.ids, r1.m.ids, r.m.ids, n - 1);
        }
      }
    }
  }

  /** One pass's bookkeeping: push the loop's level, run the body in it and
      clear it, keeps the lvl levels below. */
  lemma PassKept(a: Store, b: Store, c: Store, lvl: nat)
    requires lvl <= |a| <= lvl + 1 && |b| == lvl + 1
    requires Kept(Resize(a, lvl + 1), b, lvl)
    requires c == b[lvl := map[]]
    ensures Kept(a, c, lvl)
  {
    ResizeKept(a, lvl, lvl + 1);
    ClearKept(b, lvl);
    KeptTransitive(a, Resize(a, lvl + 1), b, lvl);
    KeptTransitive(a, b, c, lvl);
  }

  lemma {:induction false} ExecIfKept(s: Ast, lvl: nat, m: Machine, fuel: nat)
    requires s.If? && lvl == |m.ids|
    ensures var r := ExecIf(s, lvl, m, fuel);
            r.Done? ==> Kept(m.ids, r.m.ids, lvl)
    decreases s, 3, 0
  {
    if !m.err.Poisoned() {
      var m1 := m.(ids := Resize(m.ids, lvl + 1));
      var (c, m2) := EvalExpr(s.cond, m1);
      var m3 := m2.(ids := m2.ids[lvl := map[]]);
      var b := if c != 0 then s.thenBody else s.elseBody;
      var r := Exec(b, lvl + 1, m3, fuel);
      if r.Done? {
        ResizeKept(m.ids, lvl, lvl + 1);
        ClearKept(m2.ids, lvl);
        KeptTransitive(m.ids, m1.ids, m3.ids, lvl);
        ExecKept(b, lvl + 1, m3, fuel);
        KeptWeaken(m3.ids, r.m.ids, if WritesStore(b) then lvl else lvl + 1, lvl);
        KeptTransitive(m.ids, m3.ids, r.m.ids, lvl);
        ResizeKept(r.m.ids, lvl, lvl);
        KeptTransitive(m.ids, r.m.ids, Resize(r.m.ids, lvl), lvl);
      }
    }
  }

  /** Popping back to lvl levels after a pass keeps the lvl levels below. */
  lemma PopKept(a: Store, b: Store, lvl: nat)
    requires Kept(a, b, lvl)
    ensures Kept(a, Resize(b, lvl), lvl)
  {
    ResizeKept(b, lvl, lvl);
    KeptTransitive(a, b, Resize(b, lvl), lvl);
  }

  /** A step that keeps the levels, followed by a run that keeps them. */
  lemma ThenKept(a: Store, b: Store, r: Outcome, lvl: nat)
    requires Kept(a, b, lvl) && (r.Done? ==> Kept(b, r.m.ids, lvl))
    ensures r.Done? ==> Kept(a, r.m.ids, lvl)
  {
    if r.Done? {
      KeptTransitive(a, b, r.m.ids, lvl);
    }
  }

  /** A loop body run in a pushed level, which is then cleared, keeps the
      lvl levels below. */
  lemma {:induction false} BodyKept(b: Ast, lvl: nat, m: Machine, fuel: nat)
    requires lvl <= |m.ids| <= lvl + 1
    ensures var r := Exec(b, lvl + 1, m.(ids := Resize(m.ids, lvl + 1)), fuel);
            r.Done? ==> Kept(m.ids, r.m.ids[lvl := map[]], lvl)
    decreases b, 5
  {
    var m1 := m.(ids := Resize(m.ids, lvl + 1));
    var r := Exec(b, lvl + 1, m1, fuel);
    if r.Done? {
      ExecKept(b, lvl + 1, m1, fuel);
      KeptWeaken(m1.ids, r.m.ids, if WritesStore(b) then lvl else lvl + 1, lvl);
      PassKept(m.ids, r.m.ids, r.m.ids[lvl := map[]], lvl);
    }
  }

  /** A statement run one level up keeps the lvl levels below. */
  lemma {:induction false} InnerKept(b: Ast, lvl: nat, m: Machine, fuel: nat)
    requires |m.ids| == lvl + 1
    ensures var r := Exec(b, lvl + 1, m, fuel);
            r.Done? ==> Kept(m.ids, r.m.ids, lvl)
    decreases b, 5
  {
    var r := Exec(b, lvl + 1, m, fuel);
    if r.Done? {
      ExecKept(b, lvl + 1, m, fuel);
      KeptWeaken(m.ids, r.m.ids, if WritesStore(b) then lvl else lvl + 1, lvl);
    }
  }

  /** A loop condition evaluated in a pushed level, which is then cleared,
      keeps the lvl levels below. */
  lemma CondKept(c: Ast, lvl: nat, m: Machine)
    requires lvl <= |m.ids| <= lvl + 1
    ensures var m2 := EvalExpr(c, m.(ids := Resize(m.ids, lvl + 1))).1;
            Kept(m.ids, m2.ids[lvl := map[]], lvl)
  {
    var m2 := EvalExpr(c, m.(ids := Resize(m.ids, lvl + 1))).1;
    PassKept(m.ids, m2.ids, m2.ids[lvl := map[]], lvl);
  }

  /** One pass of run_do's loop: either the loop ends with the lvl levels
      below kept, or it goes on from a state `next` that keeps them. */
  lemma {:induction false} DoPassKept(s: Ast, lvl: nat, m: Machine, fuel: nat, k: nat)
    returns (ended: bool, next: Machine)
    requires s.Loop? && lvl <= |m.ids| <= lvl + 1 && k > 0
    ensures var r := DoPasses(s, lvl, m, fuel, k);
            (ended ==> (r.Done? ==> Kept(m.ids, r.m.ids, lvl))) &&
            (!ended ==> Kept(m.ids, next.ids, lvl) && |next.ids| == lvl + 1 &&
                        r == DoPasses(s, lvl, next, fuel, k - 1))
    decreases s, 1
  {
    var r1 := Exec(s.body, lvl + 1, m.(ids := Resize(m.ids, lvl + 1)), fuel);
    ended, next := true, m;
    if r1.Done? {
      BodyKept(s.body, lvl, m, fuel);
      var p := EvalExpr(s.cond, r1.m.(ids := r1.m.ids[lvl := map[]]));
      DoPassesStep(s, lvl, m, fuel, k, r1.m, p.0, p.1);
      if p.0 == 0 {
        PopKept(m.ids, p.1.ids, lvl);
      } else {
        ended, next := false, p.1;
      }
    }
  }

  lemma {:induction false} DoPassesKept(s: Ast, lvl: nat, m: Machine, fuel: nat, k: nat)
    requires s.Loop? && lvl <= |m.ids| <= lvl + 1
    ensures var r := DoPasses(s, lvl, m, fuel, k);
            r.Done? ==> Kept(m.ids, r.m.ids, lvl)
    decreases s, 2, k
  {
    if k > 0 {
      var ended, next := DoPassKept(s, lvl, m, fuel, k);
      if !ended {
        DoPassesKept(s, lvl, next, fuel, k - 1);
        ThenKept(m.ids, next.ids, DoPasses(s, lvl, next, fuel, k - 1), lvl);
      }
    }
  }

  /** One pass of run_while's loop: either the loop ends with the lvl
      levels below kept, or it goes on from a state `next` that keeps them. */
  lemma {:induction false} WhilePassKept(s: Ast, lvl: nat, m: Machine, fuel: nat, k: nat)
    returns (ended: bool, next: Machine)
    requires s.Loop? && lvl <= |m.ids| <= lvl + 1 && k > 0
    ensures var r := WhilePasses(s, lvl, m, fuel, k);
            (ended ==> (r.Done? ==> Kept(m.ids, r.m.ids, lvl))) &&
            (!ended ==> Kept(m.ids, next.ids, lvl) && |next.ids| == lvl + 1 &&
                        r == WhilePasses(s, lvl, next, fuel, k - 1))
    decreases s, 1
  {
    var p := EvalExpr(s.cond, m.(ids := Resize(m.ids, lvl + 1)));
    var m3 := p.1.(ids := p.1.ids[lvl := map[]]);
    CondKept(s.cond, lvl, m);
    ended, next := true, m;
    if p.0 == 0 {
      PopKept(m.ids, m3.ids, lvl);
    } else {
      var r1 := Exec(s.body, lvl + 1, m3, fuel);
      if r1.Done? {
        InnerKept(s.body, lvl, m3, fuel);
        ThenKept(m.ids, m3.ids, r1, lvl);
        WhilePassesStep(s, lvl, m, fuel, k, p.0, p.1, r1.m);
        ended, next := false, r1.m;
      }
    }
  }

  lemma {:induction false} WhilePassesKept(s: Ast, lvl: nat, m: Machine, fuel: nat, k: nat)
    requires s.Loop? && lvl <= |m.ids| <= lvl + 1
    ensures var r := WhilePasses(s, lvl, m, fuel, k);
            r.Done? ==> Kept(m.ids, r.m.ids, lvl)
    decreases s, 2, k
  {
    if k > 0 {
      var ended, next := WhilePassKept(s, lvl, m, fuel, k);
      if !ended {
        WhilePassesKept(s, lvl, next, fuel, k - 1);
        ThenKept(m.ids, next.ids, WhilePasses(s, lvl, next, fuel, k - 1), lvl);
      }
    }
  }

  /** A name no level binds is still unbound after a block, an if or a loop
      has run: its bindings went with the levels it pushed. */
  lemma BlockBindingsAreLocal(s: Ast, lvl: nat, m: Machine, fuel: nat, x: nat)
    requires lvl == |m.ids| && !WritesStore(s)
    requires forall k :: 0 <= k < lvl ==> x !in m.ids[k]
    ensures var r := Exec(s, lvl, m, fuel);
            r.Done? ==> forall k :: 0 <= k < |r.m.ids| ==> x !in r.m.ids[k]
  {
    ExecKept(s, lvl, m, fuel);
  }

  /** Running any statement from a scope stack in which every identifier is
      bound in at most one level keeps it so. `run` starts from an empty
      stack, so every state a run passes through has this property and the
      direction in which run_int and run_id_lval search does not matter. */
  lemma StatementsKeepUnique(s: Ast, lvl: nat, m: Machine, fuel: nat)
    requires lvl == |m.ids| && (lvl >= 1 || !WritesStore(s)) && Unique(m.ids)
    ensures var r := Exec(s, lvl, m, fuel);
            r.Done? ==> Unique(r.m.ids)
  {
    ExecKept(s, lvl, m, fuel);
  }

  // ----- assignment -----

  /** Two stores whose levels bind the same names find a name at the same
      level. */
  lemma {:induction false} FirstBindingSameNames(a: Store, b: Store, x: nat, i: nat)
    requires |a| == |b| && i <= |a|
    requires forall k :: i <= k < |a| ==> (x in a[k] <==> x in b[k])
    ensures FirstBinding(a, x, i) == FirstBinding(b, x, i)
    decreases |a| - i
  {
    if i < |a| && x !in a[i] {
      FirstBindingSameNames(a, b, x, i + 1);
    }
  }

  /** After `x = e`, reading x gives the assigned value, and every other name
      reads as before. */
  lemma AssignThenRead(x: nat, rhs: Ast, lvl: nat, m: Machine, y: nat)
    requires lvl == |m.ids| && lvl >= 1 && !m.err.Poisoned()
    ensures var (v, m1) := ExecRight(Assign(x, rhs), lvl, m);
            EvalInt(Id(x), m1).0 == v && EvalInt(Id(x), m1).1.err == m1.err &&
            (y != x ==> FirstBinding(m1.ids, y, 0) == FirstBinding(m.ids, y, 0) &&
                        EvalInt(Id(y), m1).0 == EvalInt(Id(y), m).0)
  {
    var (ids1, j) := Lval(m.ids, x, lvl);
    var (v, m2) := EvalExpr(rhs, m.(ids := ids1));
    var ids2 := Overwrite(m2.ids, j, x, v);
    assert ExecRight(Assign(x, rhs), lvl, m).1.ids == ids2;
    assert FirstBinding(ids2, x, 0) == j by {
      FirstBindingAt(ids2, x, j);
    }
    if y != x {
      FirstBindingSameNames(ids2, m.ids, y, 0);
      var f := FirstBinding(m.ids, y, 0);
      if f < |m.ids| {
        assert ids2[f][y] == m.ids[f][y] by {
          if f == lvl - 1 {
            assert ids1[f] == m.ids[f] || ids1[f] == m.ids[f][x := 0];
          }
        }
      }
    }
  }

  /** `x = x + 1;` with x bound nowhere: run_id_lval creates x = 0 before the
      right side is read, so x becomes 1 and no error is recorded. */
  lemma FreshIncrement(x: nat, lvl: nat, m: Machine)
    requires lvl == |m.ids| && lvl >= 1 && !m.err.Poisoned()
    requires forall k :: 0 <= k < lvl ==> x !in m.ids[k]
    ensures var (v, m1) := ExecRight(Assign(x, BinOp(Types.Addition, Id(x), IntLit(1))), lvl, m);
            v == 1 && m1.err == m.err && m1.ids[lvl - 1][x] == 1
  {
    assert FirstBinding(m.ids, x, 0) == |m.ids|;
    var (ids1, j) := Lval(m.ids, x, lvl);
    var m1 := m.(ids := ids1);
    assert j == lvl - 1 && ids1[j][x] == 0;
    assert EvalExpr(Id(x), m1) == (0, m1);
    assert EvalExpr(IntLit(1), m1) == (1, m1);
    assert EvalExpr(BinOp(Types.Addition, Id(x), IntLit(1)), m1) == (1, m1);
  }

  /** A bare identifier, as a statement or as the operand of `print`, goes
      through run_id_lval: an unbound x is created as 0 in the innermost
      level and no error is recorded. The same name read inside an
      expression goes through run_int and records "Undefined identifier". */
  lemma BareIdentifierCreates(x: nat, lvl: nat, m: Machine)
    requires lvl == |m.ids| && lvl >= 1 && !m.err.Poisoned()
    requires forall k :: 0 <= k < lvl ==> x !in m.ids[k]
    ensures ExecRight(Id(x), lvl, m).0 == 0
    ensures ExecRight(Id(x), lvl, m).1.err == m.err
    ensures var lv: map<nat, int> := m.ids[lvl - 1][x := 0];
            ExecRight(Id(x), lvl, m).1.ids == m.ids[lvl - 1 := lv]
    ensures EvalExpr(Id(x), m).1.err == m.err.Add(MsgUndefined)
  {
    assert FirstBinding(m.ids, x, 0) == |m.ids|;
  }

  /** A bound bare identifier yields its first binding and changes nothing. */
  lemma BareIdentifierReads(x: nat, lvl: nat, m: Machine)
    requires lvl == |m.ids| && lvl >= 1 && !m.err.Poisoned()
    requires FirstBinding(m.ids, x, 0) < |m.ids|
    ensures ExecRight(Id(x), lvl, m) == (m.ids[FirstBinding(m.ids, x, 0)][x], m)
  {
  }

  /** `x = e; print x;` prints the value assigned to x, unless the
      assignment recorded an error, after which nothing is printed. */
  lemma PrintAssigned(x: nat, rhs: Ast, n: nat, m: Machine, fuel: nat)
    requires n == |m.ids| && n >= 1 && !m.err.Poisoned()
    ensures var r := ExecSeq(Scope([Assign(x, rhs), Print(Id(x))]), 0, n, m, fuel);
            var (v, m1) := ExecRight(Assign(x, rhs), n, m);
            r.Done? &&
            (!m1.err.Poisoned() ==> r.m.output == m.output + [v]) &&
            (m1.err.Poisoned() ==> r.m.output == m.output)
  {
    var s := Scope([Assign(x, rhs), Print(Id(x))]);
    var (v, m1) := ExecRight(Assign(x, rhs), n, m);
    assert Exec(Assign(x, rhs), n, m, fuel) == Done(m1);
    AssignThenRead(x, rhs, n, m, x);
    var m2 := ExecPrnt(Print(Id(x)), n, m1);
    assert Exec(Print(Id(x)), n, m1, fuel) == Done(m2);
    assert ExecSeq(s, 2, n, m2, fuel) == Done(m2);
    if !m1.err.Poisoned() {
      assert ExecRight(Id(x), n, m1).0 == v;
    }
  }

  // ----- equivalent statements -----

  /** A scope of one statement runs that statement. */
  lemma SingleStatement(t: Ast, n: nat, m: Machine, fuel: nat)
    requires n == |m.ids| && n >= 1
    ensures ExecSeq(Scope([t]), 0, n, m, fuel) == Exec(t, n, m, fuel)
  {
    var r := Exec(t, n, m, fuel);
    if r.Done? {
      assert ExecSeq(Scope([t]), 1, n, r.m, fuel) == Done(r.m);
    }
  }

  /** `if (true) t else f` runs as `{ t }`. */
  lemma IfTrue(t: Ast, f: Ast, lvl: nat, m: Machine, fuel: nat)
    requires lvl == |m.ids|
    ensures Exec(If(BoolLit(true), t, f), lvl, m, fuel) == Exec(Scope([t]), lvl, m, fuel)
  {
    if !m.err.Poisoned() {
      var m1 := m.(ids := Resize(m.ids, lvl + 1));
      assert EvalExpr(BoolLit(true), m1) == (1, m1);
      assert m1.(ids := m1.ids[lvl := map[]]) == m1;
      SingleStatement(t, lvl + 1, m1, fuel);
    }
  }

  /** `if (false) t else f` runs as `{ f }`. */
  lemma IfFalse(t: Ast, f: Ast, lvl: nat, m: Machine, fuel: nat)
    requires lvl == |m.ids|
    ensures Exec(If(BoolLit(false), t, f), lvl, m, fuel) == Exec(Scope([f]), lvl, m, fuel)
  {
    if !m.err.Poisoned() {
      var m1 := m.(ids := Resize(m.ids, lvl + 1));
      assert EvalExpr(BoolLit(false), m1) == (0, m1);
      assert m1.(ids := m1.ids[lvl := map[]]) == m1;
      SingleStatement(f, lvl + 1, m1, fuel);
    }
  }

  /** `do b while (false);` runs its body once, as `{ b }`. */
  lemma DoFalseRunsOnce(b: Ast, lvl: nat, m: Machine, fuel: nat)
    requires lvl == |m.ids| && fuel >= 1
    ensures Exec(Loop(Do, BoolLit(false), b), lvl, m, fuel) == Exec(Scope([b]), lvl, m, fuel)
  {
    if !m.err.Poisoned() {
      var s := Loop(Do, BoolLit(false), b);
      assert Exec(s, lvl, m, fuel) == DoPasses(s, lvl, m, fuel, fuel);
      var m1 := m.(ids := Resize(m.ids, lvl + 1));
      SingleStatement(b, lvl + 1, m1, fuel);
      var r := Exec(b, lvl + 1, m1, fuel);
      if r.Done? {
        var m3 := r.m.(ids := r.m.ids[lvl := map[]]);
        assert EvalExpr(BoolLit(false), m3) == (0, m3);
        DoPassesStep(s, lvl, m, fuel, fuel, r.m, 0, m3);
        assert Resize(m3.ids, lvl) == Resize(r.m.ids, lvl);
      }
    }
  }

  /** `while (false) b` does nothing. */
  lemma WhileFalseSkips(b: Ast, lvl: nat, m: Machine, fuel: nat)
    requires lvl == |m.ids| && fuel >= 1
    ensures Exec(Loop(While, BoolLit(false), b), lvl, m, fuel) == Done(m)
  {
    if !m.err.Poisoned() {
      var s := Loop(While, BoolLit(false), b);
      assert Exec(s, lvl, m, fuel) == WhilePasses(s, lvl, m, fuel, fuel);
      var m1 := m.(ids := Resize(m.ids, lvl + 1));
      assert EvalExpr(BoolLit(false), m1) == (0, m1);
      assert m1.(ids := m1.ids[lvl := map[]]) == m1;
      assert Resize(m1.ids, lvl) == m.ids;
      assert m1.(ids := m.ids) == m;
    }
  }

  /** `0 && ?` does not read the input: the right operand of `&&` is skipped
      once the left one is 0. */
  lemma AndShortCircuits(l: Ast, m: Machine)
    requires !m.err.Poisoned() && EvalExpr(l, m).0 == 0
    ensures EvalExpr(BinOp(Types.And, l, ScanExpr), m) == (0, EvalExpr(l, m).1)
  {
  }
}
