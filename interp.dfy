/** The `parser` class of parser.h: the syntax tree `root_`, the scope stack
    `IDs_`, the error buffer and counter, and (in place of std::cin and
    std::cout) the numbers still to be read and the numbers printed. Its
    cursor-moving parse methods and its run methods update these fields
    step by step as the source does, and each is proved to end in the state
    the specification functions of StmtParser and Eval compute. */
module Interp {
  import Types
  import opened Tokens
  import opened Syntax
  import opened ExprParser
  import opened StmtParser
  import opened Eval

  class Parser {
    var root: Ast
    var ids: Store
    /** The diagnostics behind the `errors` string, which is their
        Transcript. */
    var errors: seq<Diag>
    var errCtr: nat
    const input: seq<int>
    var read: nat
    var output: seq<int>

    /** err_ctr and errors as one value. */
    function Errors(): ErrState
      reads this
    {
      ErrState(errCtr, errors)
    }

    /** What the evaluator works on. */
    function State(): Machine
      reads this
    {
      Machine(ids, input, read, output, Errors())
    }

    /** The tree can be run from level 0: it is the Empty of a fresh parser
        or the scope `parse` builds. */
    predicate Valid()
      reads this
    {
      root.Scope? || root.Empty?
    }

    constructor(input: seq<int>)
      ensures Valid() && root == Empty && Errors() == NoErrors
      ensures ids == [] && this.input == input && read == 0 && output == []
    {
      root := Empty;
      ids := [];
      errors := [];
      errCtr := 0;
      this.input := input;
      read := 0;
      output := [];
    }

    /** `++err_ctr; errors += msg;` */
    method Fail(msg: Diag)
      modifies this`errCtr, this`errors
      ensures Errors() == old(Errors()).Add(msg)
    {
      errCtr := errCtr + 1;
      errors := errors + [msg];
    }

    /** Store the error state an expression parser returned. */
    method SetErrors(e: ErrState)
      modifies this`errCtr, this`errors
      ensures Errors() == e
    {
      errCtr := e.ctr;
      errors := e.diags;
    }

    /** parse: clears the errors, parses the statement list, records a stray
        token if it stopped before the end, and returns 0 exactly when no
        error was recorded. */
    method Parse(toks: seq<Token>) returns (code: int)
      modifies this`root, this`errCtr, this`errors
      ensures (root, Errors()) == ParseProgram(toks)
      ensures Valid()
      ensures code == (if errCtr == 0 then 0 else -1)
    {
      errors := [];
      errCtr := 0;
      var c;
      root, c := ParseStmts(toks, 0);
      if c != |toks| {
        Fail(MsgStray);
      }
      if errCtr > 0 {
        return -1;
      }
      return 0;
    }

    /** parse_block */
    method ParseBlock(toks: seq<Token>, cur: nat) returns (nd: Ast, c: nat)
      requires cur <= |toks|
      modifies this`errCtr, this`errors
      ensures Parsed(nd, c, Errors()) == ParseBlockF(toks, cur, old(Errors()))
      decreases |toks| - cur, 1
    {
      c := cur;
      if c == |toks| {
        nd := Empty;
      } else if toks[c].Kind() == Types.OpenBrace {
        nd, c := ParseStmts(toks, c + 1);
        if c == |toks| || toks[c].Kind() != Types.CloseBrace {
          Fail(MsgExpectedCloseBrace);
        }
        if c < |toks| {
          c := c + 1;
        }
      } else {
        nd := Empty;
        Fail(MsgExpectedOpenBrace);
      }
    }

    /** parse_stmts: the while loop pushing statements into the scope. */
    method ParseStmts(toks: seq<Token>, cur: nat) returns (nd: Ast, c: nat)
      requires cur <= |toks|
      modifies this`errCtr, this`errors
      ensures var r := ParseStmtsF(toks, cur, old(Errors()), []);
              nd == Scope(r.trees) && c == r.next && Errors() == r.err
      decreases |toks| - cur, 3
    {
      var nodes := [];
      c := cur;
      while errCtr == 0 && c != |toks| && toks[c].Kind() != Types.CloseBrace
        invariant cur <= c <= |toks|
        invariant ParseStmtsF(toks, c, Errors(), nodes) == ParseStmtsF(toks, cur, old(Errors()), [])
        decreases |toks| - c, if errCtr == 0 then 1 else 0
      {
        var s;
        s, c := ParseStmt(toks, c);
        nodes := nodes + [s];
      }
      nd := Scope(nodes);
    }

    /** handle_if_else */
    method HandleIfElse(toks: seq<Token>, cur: nat) returns (nd: Ast, c: nat)
      requires cur < |toks|
      modifies this`errCtr, this`errors
      ensures Parsed(nd, c, Errors()) == HandleIfElseF(toks, cur, old(Errors()))
      decreases |toks| - cur, 1
    {
      var cond, body;
      cond, c := ParenCond(toks, cur + 1);
      body, c := ParseStmt(toks, c);
      var other;
      other, c := ElseBranch(toks, c);
      nd := If(cond, body, other);
    }

    /** The optional else branch of handle_if_else. */
    method ElseBranch(toks: seq<Token>, cur: nat) returns (nd: Ast, c: nat)
      requires cur <= |toks|
      modifies this`errCtr, this`errors
      ensures Parsed(nd, c, Errors()) == ElseBranchF(toks, cur, old(Errors()))
      decreases |toks| - cur, 3
    {
      if cur != |toks| && toks[cur].Kind() == Types.Else {
        nd, c := ParseStmt(toks, cur + 1);
      } else {
        nd, c := Empty, cur;
      }
    }

    /** handle_do_while */
    method HandleDoWhile(toks: seq<Token>, cur: nat) returns (nd: Ast, c: nat)
      requires cur < |toks|
      modifies this`errCtr, this`errors
      ensures Parsed(nd, c, Errors()) == HandleDoWhileF(toks, cur, old(Errors()))
      decreases |toks| - cur, 1
    {
      var body;
      body, c := ParseStmt(toks, cur + 1);
      var cond;
      cond, c := DoTail(toks, c);
      nd := Loop(Do, cond, body);
    }

    /** `while ( bool ) ;` after the body of a do-while */
    method DoTail(toks: seq<Token>, c: nat) returns (cond: Ast, c2: nat)
      requires c <= |toks|
      modifies this`errCtr, this`errors
      ensures Parsed(cond, c2, Errors()) == DoTailF(toks, c, old(Errors()))
    {
      c2 := Consume(toks, c, Types.While, MsgExpectedWhile);
      cond, c2 := ParenCond(toks, c2);
      c2 := Consume(toks, c2, Types.Semicolon, MsgExpectedSemicolon);
    }

    /** handle_while */
    method HandleWhile(toks: seq<Token>, cur: nat) returns (nd: Ast, c: nat)
      requires cur < |toks|
      modifies this`errCtr, this`errors
      ensures Parsed(nd, c, Errors()) == HandleWhileF(toks, cur, old(Errors()))
      decreases |toks| - cur, 1
    {
      var cond, body;
      cond, c := ParenCond(toks, cur + 1);
      body, c := ParseStmt(toks, c);
      nd := Loop(While, cond, body);
    }

    /** `( bool )` */
    method ParenCond(toks: seq<Token>, c: nat) returns (cond: Ast, c2: nat)
      requires c <= |toks|
      modifies this`errCtr, this`errors
      ensures Parsed(cond, c2, Errors()) == ParenCondF(toks, c, old(Errors()))
    {
      c2 := Consume(toks, c, Types.OpenParenthesis, MsgExpectedOpenParen);
      cond, c2 := ParseCond(toks, c2);
      c2 := Consume(toks, c2, Types.CloseParenthesis, MsgExpectedCloseParen);
    }

    /** The check the handlers make for each fixed token: step over it, or
        record `msg` and stay. */
    method Consume(toks: seq<Token>, c: nat, k: Types.NodeKind, msg: Diag) returns (c2: nat)
      requires c <= |toks|
      modifies this`errCtr, this`errors
      ensures Moved(c2, Errors()) == Expect(toks, c, k, msg, old(Errors()))
    {
      c2 := c;
      if c == |toks| || toks[c].Kind() != k {
        Fail(msg);
      } else {
        c2 := c + 1;
      }
    }

    /** A condition of if, do-while or while: find_bool_end, then
        parse_bool over the range, and the cursor moves to its end. */
    method ParseCond(toks: seq<Token>, c: nat) returns (cond: Ast, c2: nat)
      requires c <= |toks|
      modifies this`errCtr, this`errors
      ensures var boolEnd := BoolEnd(toks, c, |toks|);
              c2 == boolEnd && Built(cond, Errors()) == ParseBool(toks, c, boolEnd, old(Errors()))
    {
      var boolEnd := FindBoolEnd(toks, c, |toks|);
      var Built(x, e) := ParseBool(toks, c, boolEnd, Errors());
      SetErrors(e);
      cond, c2 := x, boolEnd;
    }

    /** parse_stmt */
    method ParseStmt(toks: seq<Token>, cur: nat) returns (nd: Ast, c: nat)
      requires cur <= |toks|
      modifies this`errCtr, this`errors
      ensures Parsed(nd, c, Errors()) == ParseStmtF(toks, cur, old(Errors()))
      decreases |toks| - cur, 2
    {
      c := cur;
      if errCtr > 0 {
        return Empty, c;
      }
      ghost var e := Errors();
      if c == |toks| {
        Fail(MsgExpectedPrimary);
        nd := Empty;
        return;
      }
      var k := toks[c].Kind();
      if k == Types.If {
        DispatchIf(toks, cur, e);
        nd, c := HandleIfElse(toks, c);
      } else if k == Types.Else {
        assert ParseStmtF(toks, cur, e) == Parsed(Empty, cur, e.Add(MsgElseWithoutIf));
        Fail(MsgElseWithoutIf);
        nd := Empty;
      } else if k == Types.Do {
        DispatchDo(toks, cur, e);
        nd, c := HandleDoWhile(toks, c);
      } else if k == Types.While {
        DispatchWhile(toks, cur, e);
        nd, c := HandleWhile(toks, c);
      } else if k == Types.OpenBrace {
        DispatchOpenBrace(toks, cur, e);
        nd, c := ParseBlock(toks, c);
      } else if k == Types.Semicolon {
        assert ParseStmtF(toks, cur, e) == Parsed(Empty, cur + 1, e);
        nd := Empty;
        c := c + 1;
      } else {
        ghost var p := ParsePrntF(toks, cur, e);
        assert ParseStmtF(toks, cur, e) ==
          var Moved(c2, e2) := Expect(toks, p.next, Types.Semicolon, MsgExpectedSemicolon, p.err);
          Parsed(p.tree, c2, e2);
        nd, c := ParsePrnt(toks, c);
        c := Consume(toks, c, Types.Semicolon, MsgExpectedSemicolon);
      }
    }

    /** parse_prnt */
    method ParsePrnt(toks: seq<Token>, cur: nat) returns (nd: Ast, c: nat)
      requires cur <= |toks|
      modifies this`errCtr, this`errors
      ensures Parsed(nd, c, Errors()) == ParsePrntF(toks, cur, old(Errors()))
    {
      c := cur;
      if errCtr > 0 {
        return Empty, c;
      }
      if c == |toks| {
        Fail(MsgExpectedPrint);
        nd := Empty;
      } else if toks[c].Kind() == Types.Print {
        var v;
        v, c := ParseRight(toks, c + 1);
        nd := Print(v);
      } else {
        nd, c := ParseRight(toks, c);
      }
    }

    /** parse_right: looks two tokens ahead for an assignment. */
    method ParseRight(toks: seq<Token>, cur: nat) returns (nd: Ast, c: nat)
      requires cur <= |toks|
      modifies this`errCtr, this`errors
      ensures Parsed(nd, c, Errors()) == ParseRightF(toks, cur, old(Errors()))
    {
      c := cur;
      if errCtr > 0 {
        return Empty, c;
      }
      if c == |toks| {
        Fail(MsgExpectedRight);
        nd := Empty;
      } else if |toks| - c >= 2 && toks[c + 1].Kind() == Types.BinaryOperation
                && toks[c + 1].bop == Types.Assignment {
        if toks[c].Id? {
          nd, c := ParseAssign(toks, c);
        } else {
          c := FindBoolEnd(toks, c + 2, |toks|);
          Fail(MsgUnknownToken);
          nd := Empty;
        }
      } else {
        nd, c := ParseCond(toks, c);
      }
    }

    /** The assignment branch of parse_right: the identifier, then the
        right side up to find_bool_end. */
    method ParseAssign(toks: seq<Token>, cur: nat) returns (nd: Ast, c: nat)
      requires cur + 2 <= |toks| && toks[cur].Id? && errCtr == 0
      modifies this`errCtr, this`errors
      ensures var Built(lhs, e1) := ParseId(toks, cur, cur + 1, old(Errors()));
              var boolEnd := BoolEnd(toks, cur + 2, |toks|);
              var Built(rhs, e2) := ParseBool(toks, cur + 2, boolEnd, e1);
              nd == Assign(lhs.id, rhs) && c == boolEnd && Errors() == e2
    {
      var Built(lhs, e1) := ParseId(toks, cur, cur + 1, Errors());
      SetErrors(e1);
      var rhs;
      rhs, c := ParseCond(toks, cur + 2);
      nd := Assign(lhs.id, rhs);
    }

    /** run: returns -1 when parsing failed, -2 when running recorded an
        error and 0 otherwise; `finished` is false when a loop ran out of
        passes. */
    method Run(fuel: nat) returns (code: int, finished: bool)
      requires Valid()
      modifies this`ids, this`read, this`output, this`errCtr, this`errors
      ensures var r := RunProgram(root, old(State()), fuel);
              finished == r.1.Done? && (finished ==> code == r.0 && State() == r.1.m)
    {
      if errCtr > 0 {
        return -1, true;
      }
      ids := [];
      finished := RunAux(root, 0, fuel);
      if !finished {
        return 0, false;
      }
      if errCtr > 0 {
        return -2, true;
      }
      return 0, true;
    }

    /** Wraps the expression evaluator: run_expr only reads input and
        records errors. */
    method Evaluate(a: Ast) returns (v: int)
      modifies this`read, this`errCtr, this`errors
      ensures (v, State()) == EvalExpr(a, old(State()))
    {
      var (value, m) := EvalExpr(a, State());
      v := value;
      read := m.read;
      SetErrors(m.err);
    }

    /** run_aux */
    method RunAux(s: Ast, lvl: nat, fuel: nat) returns (finished: bool)
      requires lvl == |ids| && (lvl >= 1 || !WritesStore(s))
      modifies this`ids, this`read, this`output, this`errCtr, this`errors
      ensures var r := Exec(s, lvl, old(State()), fuel);
              finished == r.Done? && (finished ==> State() == r.m)
      decreases s, 4
    {
      if errCtr > 0 {
        return true;
      }
      if s.Scope? {
        ids := Resize(ids, lvl + 1);
        finished := RunScope(s, lvl, fuel);
        if !finished {
          return false;
        }
        ids := Resize(ids, lvl);
      } else if s.If? {
        finished := RunIf(s, lvl, fuel);
      } else if s.Loop? && s.kind == Do {
        finished := RunDo(s, lvl, fuel);
      } else if s.Loop? {
        finished := RunWhile(s, lvl, fuel);
      } else if s != Empty {
        RunPrnt(s, lvl);
        finished := true;
      } else {
        finished := true;
      }
    }

    /** The for loop of run_aux over a scope's statements, one level down. */
    method RunScope(s: Ast, lvl: nat, fuel: nat) returns (finished: bool)
      requires s.Scope? && |ids| == lvl + 1
      modifies this`ids, this`read, this`output, this`errCtr, this`errors
      ensures var r := ExecSeq(s, 0, lvl + 1, old(State()), fuel);
              finished == r.Done? && (finished ==> State() == r.m)
      decreases s, 3
    {
      var i := 0;
      while i < |s.stmts|
        invariant i <= |s.stmts| && |ids| == lvl + 1
        invariant ExecSeq(s, i, lvl + 1, State(), fuel) == ExecSeq(s, 0, lvl + 1, old(State()), fuel)
      {
        var ok := RunAux(s.stmts[i], lvl + 1, fuel);
        if !ok {
          return false;
        }
        i := i + 1;
      }
      return true;
    }

    /** run_if */
    method RunIf(s: Ast, lvl: nat, fuel: nat) returns (finished: bool)
      requires s.If? && lvl == |ids|
      modifies this`ids, this`read, this`output, this`errCtr, this`errors
      ensures var r := ExecIf(s, lvl, old(State()), fuel);
              finished == r.Done? && (finished ==> State() == r.m)
      decreases s, 3
    {
      if errCtr > 0 {
        return true;
      }
      ids := Resize(ids, lvl + 1);
      var cond := Evaluate(s.cond);
      ids := ids[lvl := map[]];
      finished := RunAux(if cond != 0 then s.thenBody else s.elseBody, lvl + 1, fuel);
      if !finished {
        return false;
      }
      ids := Resize(ids, lvl);
    }

    /** run_do */
    method RunDo(s: Ast, lvl: nat, fuel: nat) returns (finished: bool)
      requires s.Loop? && lvl == |ids|
      modifies this`ids, this`read, this`output, this`errCtr, this`errors
      ensures var r := ExecDo(s, lvl, old(State()), fuel);
              finished == r.Done? && (finished ==> State() == r.m)
      decreases s, 3
    {
      if errCtr > 0 {
        return true;
      }
      var k := fuel;
      ghost var goal := DoPasses(s, lvl, State(), fuel, fuel);
      while true
        invariant lvl <= |ids| <= lvl + 1
        invariant DoPasses(s, lvl, State(), fuel, k) == goal
        decreases k
      {
        if k == 0 {
          return false;
        }
        var ok, cond := DoPass(s, lvl, fuel, k);
        if !ok {
          return false;
        }
        if cond == 0 {
          ghost var m := State();
          ids := Resize(ids, lvl);
          assert State() == m.(ids := Resize(m.ids, lvl));
          return true;
        }
        k := k - 1;
      }
    }

    /** One pass of run_do's loop: the body one level down, then the
        condition with that level cleared. `k` is the number of passes
        the loop has left. */
    method DoPass(s: Ast, lvl: nat, fuel: nat, ghost k: nat) returns (ok: bool, cond: int)
      requires s.Loop? && lvl <= |ids| <= lvl + 1 && k > 0
      modifies this`ids, this`read, this`output, this`errCtr, this`errors
      ensures !ok ==> DoPasses(s, lvl, old(State()), fuel, k) == OutOfFuel
      ensures ok && cond == 0 ==>
                DoPasses(s, lvl, old(State()), fuel, k) == Done(State().(ids := Resize(ids, lvl)))
      ensures ok && cond != 0 ==>
                lvl <= |ids| <= lvl + 1 &&
                DoPasses(s, lvl, State(), fuel, k - 1) == DoPasses(s, lvl, old(State()), fuel, k)
      decreases s, 2
    {
      ghost var before := State();
      ids := Resize(ids, lvl + 1);
      ghost var m1 := State();
      assert m1 == before.(ids := Resize(before.ids, lvl + 1));
      ok := RunAux(s.body, lvl + 1, fuel);
      if !ok {
        return ok, 0;
      }
      ghost var m2 := State();
      ids := ids[lvl := map[]];
      ghost var m3 := State();
      assert m3 == m2.(ids := m2.ids[lvl := map[]]);
      cond := Evaluate(s.cond);
      DoPassesStep(s, lvl, before, fuel, k, m2, cond, State());
    }

    /** run_while */
    method RunWhile(s: Ast, lvl: nat, fuel: nat) returns (finished: bool)
      requires s.Loop? && lvl == |ids|
      modifies this`ids, this`read, this`output, this`errCtr, this`errors
      ensures var r := ExecWhile(s, lvl, old(State()), fuel);
              finished == r.Done? && (finished ==> State() == r.m)
      decreases s, 3
    {
      if errCtr > 0 {
        return true;
      }
      var k := fuel;
      ghost var goal := WhilePasses(s, lvl, State(), fuel, fuel);
      while true
        invariant lvl <= |ids| <= lvl + 1
        invariant WhilePasses(s, lvl, State(), fuel, k) == goal
        decreases k
      {
        if k == 0 {
          return false;
        }
        var ok, cond := WhilePass(s, lvl, fuel, k);
        if !ok {
          return false;
        }
        if cond == 0 {
          ghost var m := State();
          ids := Resize(ids, lvl);
          assert State() == m.(ids := Resize(m.ids, lvl));
          return true;
        }
        k := k - 1;
      }
    }

    /** One pass of run_while's loop: the condition one level down, the
        level cleared, then the body when the condition holds. `k` is the
        number of passes the loop has left. */
    method WhilePass(s: Ast, lvl: nat, fuel: nat, ghost k: nat) returns (ok: bool, cond: int)
      requires s.Loop? && lvl <= |ids| <= lvl + 1 && k > 0
      modifies this`ids, this`read, this`output, this`errCtr, this`errors
      ensures !ok ==> WhilePasses(s, lvl, old(State()), fuel, k) == OutOfFuel
      ensures ok && cond == 0 ==>
                WhilePasses(s, lvl, old(State()), fuel, k) == Done(State().(ids := Resize(ids, lvl)))
      ensures ok && cond != 0 ==>
                lvl <= |ids| <= lvl + 1 &&
                WhilePasses(s, lvl, State(), fuel, k - 1) == WhilePasses(s, lvl, old(State()), fuel, k)
      decreases s, 2
    {
      ghost var before := State();
      ids := Resize(ids, lvl + 1);
      ghost var m1 := State();
      assert m1 == before.(ids := Resize(before.ids, lvl + 1));
      cond := Evaluate(s.cond);
      ghost var m2 := State();
      ids := ids[lvl := map[]];
      ghost var m3 := State();
      assert m3 == m2.(ids := m2.ids[lvl := map[]]);
      if cond == 0 {
        return true, cond;
      }
      ok := RunAux(s.body, lvl + 1, fuel);
      if ok {
        WhilePassesStep(s, lvl, before, fuel, k, cond, m2, State());
      }
    }

    /** run_prnt */
    method RunPrnt(s: Ast, lvl: nat)
      requires lvl == |ids| && (lvl >= 1 || !WritesStore(s))
      modifies this`ids, this`read, this`output, this`errCtr, this`errors
      ensures State() == ExecPrnt(s, lvl, old(State()))
    {
      if errCtr > 0 {
        return;
      }
      if s.Print? {
        var value := RunRight(s.val, lvl);
        output := output + [value];
      } else {
        var _ := RunRight(s, lvl);
      }
    }

    /** run_right */
    method RunRight(a: Ast, lvl: nat) returns (v: int)
      requires lvl == |ids| && (lvl >= 1 || !(a.Id? || a.Assign?))
      modifies this`ids, this`read, this`errCtr, this`errors
      ensures (v, State()) == ExecRight(a, lvl, old(State()))
    {
      if errCtr > 0 {
        return 0;
      }
      if a.Id? {
        var j := RunIdLval(a.id, lvl);
        return ids[j][a.id];
      } else if a.Assign? {
        var j := RunIdLval(a.target, lvl);
        v := Evaluate(a.rhs);
        var level: map<nat, int> := ids[j][a.target := v];
        ids := ids[j := level];
      } else {
        v := Evaluate(a);
      }
    }

    /** run_id_lval: the level of the first binding of x, scanning from
        level 0; without one, x is bound to 0 in level lvl - 1. */
    method RunIdLval(x: nat, lvl: nat) returns (j: nat)
      requires 1 <= lvl <= |ids|
      modifies this`ids
      ensures (ids, j) == Lval(old(ids), x, lvl)
    {
      j := 0;
      while j < |ids|
        invariant j <= |ids|
        invariant FirstBinding(ids, x, j) == FirstBinding(ids, x, 0)
      {
        if x in ids[j] {
          return;
        }
        j := j + 1;
      }
      var level: map<nat, int> := ids[lvl - 1][x := 0];
      ids := ids[lvl - 1 := level];
      j := lvl - 1;
    }
  }
}
