/** How long a noint block holds: exactly when the flag set at its beginning is still set at its end. */
module Flags {
  import opened Options
  import opened Words
  import opened Ast
  import opened Source

  // ---------- code without noint ----------

  /** Every call in the expression goes to one of the given functions. */
  predicate CallsOnly(e: Expr, gs: set<nat>)
    decreases e
  {
    match e
    case Num(_) => true
    case Bool(_) => true
    case Name(_) => true
    case Assign(_, r) => CallsOnly(r, gs)
    case AssignOp(_, _, r) => CallsOnly(r, gs)
    case Arith(_, l, r) => CallsOnly(l, gs) && CallsOnly(r, gs)
    case Cmp(_, l, r) => CallsOnly(l, gs) && CallsOnly(r, gs)
    case Conj(l, r) => CallsOnly(l, gs) && CallsOnly(r, gs)
    case Disj(l, r) => CallsOnly(l, gs) && CallsOnly(r, gs)
    case Comma(l, r) => CallsOnly(l, gs) && CallsOnly(r, gs)
    case Cast(a, _) => CallsOnly(a, gs)
    case UPlus(a) => CallsOnly(a, gs)
    case UMinus(a) => CallsOnly(a, gs)
    case LNot(a) => CallsOnly(a, gs)
    case BNot(a) => CallsOnly(a, gs)
    case PreInc(_, _) => true
    case PostInc(_, _) => true
    case Tern(c, t, f) => CallsOnly(c, gs) && CallsOnly(t, gs) && CallsOnly(f, gs)
    case Call(g, args) => g in gs && ArgsCallOnly(args, gs)
  }

  predicate ArgsCallOnly(args: Args, gs: set<nat>)
    decreases args
  {
    args.Arg? ==> CallsOnly(args.head, gs) && ArgsCallOnly(args.tail, gs)
  }

  /** No noint block inside, and calls only to the given functions. */
  predicate Quiet(st: Stmt, gs: set<nat>)
    decreases st
  {
    match st
    case Decl(_, init) => init.Some? ==> CallsOnly(init.value, gs)
    case ExprS(e) => CallsOnly(e, gs)
    case Block(b) => QuietAll(b, gs)
    case NoInt(_) => false
    case If(els) => QuietElse(els, gs)
    case While(c, b) => CallsOnly(c, gs) && QuietAll(b, gs)
    case DoWhile(b, c) => CallsOnly(c, gs) && QuietAll(b, gs)
    case Return(v) => v.Some? ==> CallsOnly(v.value, gs)
    case WLabel(_) => true
  }

  predicate QuietAll(ss: Stmts, gs: set<nat>)
    decreases ss
  {
    ss.Cons? ==> Quiet(ss.head, gs) && QuietAll(ss.tail, gs)
  }

  predicate QuietElse(els: Else, gs: set<nat>)
    decreases els
  {
    match els
    case NoElse => true
    case ElseBlock(b) => QuietAll(b, gs)
    case Elif(c, b, rest) => CallsOnly(c, gs) && QuietAll(b, gs) && QuietElse(rest, gs)
  }

  /** The functions contain no noint block and call only one another. */
  predicate Closed(p: Program, gs: set<nat>) {
    forall g :: g in gs && g < |p| ==> QuietAll(p[g].body, gs)
  }

  // ---------- such code leaves the flag alone ----------

  ghost predicate Kept(s: St, out: Outcome<(St, Res)>) {
    out.Ok? ==> out.value.0.noint == s.noint
  }

  ghost predicate KeptFlow(s: St, out: Outcome<(St, Flow)>) {
    out.Ok? ==> out.value.0.noint == s.noint
  }

  lemma OperatorsKeep(f: Func, s: St, a: Res)
    ensures forall x :: Kept(s, DoAssign(f, x, s, a))
    ensures forall to :: Kept(s, DoCast(f, to, s, a))
    ensures Kept(s, DoTruth(f, s, a)) && Kept(s, DoMinus(f, s, a)) && Kept(s, DoNot(f, s, a))
    ensures Kept(s, DoComplement(f, s, a)) && Kept(s, DoSelect(f, s, a))
    ensures forall up, x, post :: Kept(s, DoBump(f, up, x, post, s))
  {
    hide Value, Scalar, Fit, Complement, Minus;
  }

  lemma PairsKeep(f: Func, s: St, a: Res, b: Res)
    ensures forall op :: Kept(s, DoArith(f, op, s, a, b))
    ensures forall op :: Kept(s, DoCmp(f, op, s, a, b))
    ensures forall op, x :: Kept(s, DoAssignOp(f, op, x, s, a, b))
  {
    hide Value, Scalar, Operate, SrcCmp;
  }

  lemma {:induction false} InitKeeps(f: Func, names: seq<nat>, s: St, r: Res)
    ensures InitAll(f, names, s, r).Ok? ==> InitAll(f, names, s, r).value.noint == s.noint
    decreases |names|
  {
    hide Value, Scalar;
    if names != [] && Value(f, s, r).Ok? {
      var o := Store(f, s, names[0], Value(f, s, r).value);
      if o.Ok? {
        InitKeeps(f, names[1..], o.value, r);
      }
    }
  }

  lemma {:induction false} FlagExpr(w: World, gs: set<nat>, f: Func, e: Expr, s: St, sp: nat, fuel: nat)
    requires Closed(w.prog, gs) && CallsOnly(e, gs)
    ensures Kept(s, Eval(w, f, e, s, sp, fuel))
    decreases fuel, e, 2
  {
    hide Value, Operand, DoAssign, DoAssignOp, DoTruth, DoCast, DoMinus, DoNot, DoComplement, DoBump, DoSelect, EvalCall;
    hide DoArith, DoCmp, EvalPair, Closed;
    match e
    case Num(_) =>
    case Bool(_) =>
    case Name(_) =>
    case Assign(_, r) => FlagPart(w, gs, f, r, s, sp, fuel);
    case AssignOp(_, x, r) =>
      FlagPart(w, gs, f, r, s, sp, fuel);
      var a, b := Operand(w, f, s, RVar(x)), Eval(w, f, r, s, sp, fuel);
      if a.Ok? && b.Ok? {
        PairsKeep(f, b.value.0, a.value, b.value.1);
      }
    case Arith(_, _, _) => FlagPair(w, gs, f, e, s, sp, fuel);
    case Cmp(_, _, _) => FlagPair(w, gs, f, e, s, sp, fuel);
    case Conj(_, _) => FlagTwo(w, gs, f, e, s, sp, fuel);
    case Disj(_, _) => FlagTwo(w, gs, f, e, s, sp, fuel);
    case Comma(_, _) => FlagTwo(w, gs, f, e, s, sp, fuel);
    case Cast(a, _) => FlagPart(w, gs, f, a, s, sp, fuel);
    case UPlus(a) => FlagExpr(w, gs, f, a, s, sp, fuel);
    case UMinus(a) => FlagPart(w, gs, f, a, s, sp, fuel);
    case LNot(a) => FlagPart(w, gs, f, a, s, sp, fuel);
    case BNot(a) => FlagPart(w, gs, f, a, s, sp, fuel);
    case PreInc(_, _) => OperatorsKeep(f, s, RVoid);
    case PostInc(_, _) => OperatorsKeep(f, s, RVoid);
    case Tern(_, _, _) => FlagTern(w, gs, f, e, s, sp, fuel);
    case Call(g, args) => FlagCall(w, gs, f, g, args, s, sp, fuel);
  }

  /** A part, and the operator applied to its result. */
  lemma {:induction false} FlagPart(w: World, gs: set<nat>, f: Func, e: Expr, s: St, sp: nat, fuel: nat)
    requires Closed(w.prog, gs) && CallsOnly(e, gs)
    ensures Kept(s, Eval(w, f, e, s, sp, fuel))
    ensures var o := Eval(w, f, e, s, sp, fuel);
      o.Ok? ==>
        var s1, a := o.value.0, o.value.1;
        && (forall x :: Kept(s1, DoAssign(f, x, s1, a))) && (forall to :: Kept(s1, DoCast(f, to, s1, a)))
        && Kept(s1, DoMinus(f, s1, a)) && Kept(s1, DoNot(f, s1, a)) && Kept(s1, DoComplement(f, s1, a))
    decreases fuel, e, 3
  {
    hide *;
    FlagExpr(w, gs, f, e, s, sp, fuel);
    var o := Eval(w, f, e, s, sp, fuel);
    if o.Ok? {
      OperatorsKeep(f, o.value.0, o.value.1);
    }
  }

  lemma {:induction false} FlagPair(w: World, gs: set<nat>, f: Func, e: Expr, s: St, sp: nat, fuel: nat)
    requires Closed(w.prog, gs) && CallsOnly(e, gs) && (e.Arith? || e.Cmp?)
    ensures Kept(s, Eval(w, f, e, s, sp, fuel))
    decreases fuel, e, 1
  {
    hide Value, Operand, DoArith, DoCmp, Closed, EvalCall;
    FlagExpr(w, gs, f, e.l, s, sp, fuel);
    var p := Eval(w, f, e.l, s, sp, fuel);
    if p.Ok? {
      FlagExpr(w, gs, f, e.r, p.value.0, sp, fuel);
      var o := EvalPair(w, f, e, s, sp, fuel);
      if o.Ok? {
        PairsKeep(f, o.value.0, o.value.1, o.value.2);
      }
    }
  }

  lemma {:induction false} FlagTwo(w: World, gs: set<nat>, f: Func, e: Expr, s: St, sp: nat, fuel: nat)
    requires Closed(w.prog, gs) && CallsOnly(e, gs) && (e.Conj? || e.Disj? || e.Comma?)
    ensures Kept(s, Eval(w, f, e, s, sp, fuel))
    decreases fuel, e, 1
  {
    hide Value, DoTruth, Closed, EvalCall;
    FlagExpr(w, gs, f, e.l, s, sp, fuel);
    var p := Eval(w, f, e.l, s, sp, fuel);
    if p.Ok? {
      FlagExpr(w, gs, f, e.r, p.value.0, sp, fuel);
      var q := Eval(w, f, e.r, p.value.0, sp, fuel);
      if q.Ok? {
        OperatorsKeep(f, q.value.0, q.value.1);
      }
    }
  }

  lemma {:induction false} FlagTern(w: World, gs: set<nat>, f: Func, e: Expr, s: St, sp: nat, fuel: nat)
    requires Closed(w.prog, gs) && CallsOnly(e, gs) && e.Tern?
    ensures Kept(s, Eval(w, f, e, s, sp, fuel))
    decreases fuel, e, 1
  {
    hide Value, DoSelect, Closed, EvalCall;
    FlagExpr(w, gs, f, e.c, s, sp, fuel);
    var p := Eval(w, f, e.c, s, sp, fuel);
    if p.Ok? && Value(f, p.value.0, p.value.1).Ok? {
      var b := if Value(f, p.value.0, p.value.1).value.0 != 0 then e.t else e.f;
      FlagExpr(w, gs, f, b, p.value.0, sp, fuel);
      var q := Eval(w, f, b, p.value.0, sp, fuel);
      if q.Ok? {
        OperatorsKeep(f, q.value.0, q.value.1);
      }
    }
  }

  lemma {:induction false} FlagCall(w: World, gs: set<nat>, f: Func, g: nat, args: Args, s: St, sp: nat, fuel: nat)
    requires Closed(w.prog, gs) && g in gs && ArgsCallOnly(args, gs)
    ensures Kept(s, EvalCall(w, f, g, args, s, sp, fuel))
    decreases fuel, args, 2
  {
    hide EvalArgs, EvalBody, Closed;
    if g < |w.prog| && g < |w.locals| && sp + 16 <= w.cap {
      FlagArgs(w, gs, f, args, s, sp + 16, fuel);
      var a := EvalArgs(w, f, args, s, sp + 16, fuel);
      if a.Ok? && fuel > 0 {
        FlagBody(w, gs, g, a.value.1, a.value.0.noint, a.value.0.passed, a.value.2, fuel - 1);
      }
    }
  }

  lemma {:induction false} FlagArgs(w: World, gs: set<nat>, f: Func, args: Args, s: St, sp: nat, fuel: nat)
    requires Closed(w.prog, gs) && ArgsCallOnly(args, gs)
    ensures EvalArgs(w, f, args, s, sp, fuel).Ok? ==> EvalArgs(w, f, args, s, sp, fuel).value.0.noint == s.noint
    decreases fuel, args, 1
  {
    hide Value, Eval, Closed;
    if args.Arg? {
      FlagExpr(w, gs, f, args.head, s, sp, fuel);
      var p := Eval(w, f, args.head, s, sp, fuel);
      if p.Ok? {
        FlagArgs(w, gs, f, args.tail, p.value.0, sp + 8, fuel);
      }
    }
  }

  lemma {:induction false} FlagBody(w: World, gs: set<nat>, g: nat, vals: seq<int>, noint: Flag, passed: Label, sp: nat, fuel: nat)
    requires Closed(w.prog, gs) && g in gs && g < |w.prog| && g < |w.locals|
    ensures EvalBody(w, g, vals, noint, passed, sp, fuel).Ok? ==> EvalBody(w, g, vals, noint, passed, sp, fuel).value.noint == noint
    decreases fuel, w.prog[g].body, 2
  {
    hide ExecAll, QuietAll;
    FlagAll(w, gs, w.prog[g], w.prog[g].body, St(Bind(vals), noint, passed), sp + w.locals[g], fuel);
  }

  lemma {:induction false} FlagStmt(w: World, gs: set<nat>, f: Func, st: Stmt, s: St, sp: nat, fuel: nat)
    requires Closed(w.prog, gs) && Quiet(st, gs)
    ensures KeptFlow(s, Exec(w, f, st, s, sp, fuel))
    decreases fuel, st, 1
  {
    hide Value, Eval, ExecAll, ExecElse, InitAll, Closed, QuietAll, QuietElse, CallsOnly;
    match st
    case Decl(names, init) =>
      if init.Some? {
        FlagExpr(w, gs, f, init.value, s, sp, fuel);
        var p := Eval(w, f, init.value, s, sp, fuel);
        if p.Ok? {
          InitKeeps(f, names, p.value.0, p.value.1);
        }
      }
    case ExprS(e) => FlagExpr(w, gs, f, e, s, sp, fuel);
    case Block(b) => FlagAll(w, gs, f, b, s, sp, fuel);
    case If(els) => FlagElse(w, gs, f, els, s, sp, fuel);
    case While(_, _) => FlagWhile(w, gs, f, st, s, sp, fuel);
    case DoWhile(_, _) => FlagDoWhile(w, gs, f, st, s, sp, fuel);
    case Return(v) =>
      if v.Some? {
        FlagExpr(w, gs, f, v.value, s, sp, fuel);
      }
    case WLabel(_) =>
  }

  lemma {:induction false} FlagWhile(w: World, gs: set<nat>, f: Func, st: Stmt, s: St, sp: nat, fuel: nat)
    requires Closed(w.prog, gs) && Quiet(st, gs) && st.While?
    ensures KeptFlow(s, Exec(w, f, st, s, sp, fuel))
    decreases fuel, st, 0
  {
    hide Value, Eval, ExecAll, Closed, QuietAll, CallsOnly;
    FlagExpr(w, gs, f, st.c, s, sp, fuel);
    var p := Eval(w, f, st.c, s, sp, fuel);
    if p.Ok? {
      FlagAll(w, gs, f, st.body, p.value.0, sp, fuel);
      var q := ExecAll(w, f, st.body, p.value.0, sp, fuel);
      if q.Ok? && q.value.1.Fall? && fuel > 0 {
        FlagStmt(w, gs, f, st, q.value.0, sp, fuel - 1);
      }
    }
  }

  lemma {:induction false} FlagDoWhile(w: World, gs: set<nat>, f: Func, st: Stmt, s: St, sp: nat, fuel: nat)
    requires Closed(w.prog, gs) && Quiet(st, gs) && st.DoWhile?
    ensures KeptFlow(s, Exec(w, f, st, s, sp, fuel))
    decreases fuel, st, 0
  {
    hide Value, Eval, ExecAll, Closed, QuietAll, CallsOnly;
    FlagAll(w, gs, f, st.body, s, sp, fuel);
    var p := ExecAll(w, f, st.body, s, sp, fuel);
    if p.Ok? {
      FlagExpr(w, gs, f, st.c, p.value.0, sp, fuel);
      var q := Eval(w, f, st.c, p.value.0, sp, fuel);
      if q.Ok? && fuel > 0 {
        FlagStmt(w, gs, f, st, q.value.0, sp, fuel - 1);
      }
    }
  }

  lemma {:induction false} FlagAll(w: World, gs: set<nat>, f: Func, ss: Stmts, s: St, sp: nat, fuel: nat)
    requires Closed(w.prog, gs) && QuietAll(ss, gs)
    ensures KeptFlow(s, ExecAll(w, f, ss, s, sp, fuel))
    decreases fuel, ss, 1
  {
    hide Exec, Closed, Quiet;
    if ss.Cons? {
      FlagStmt(w, gs, f, ss.head, s, sp, fuel);
      var p := Exec(w, f, ss.head, s, sp, fuel);
      if p.Ok? {
        FlagAll(w, gs, f, ss.tail, p.value.0, sp, fuel);
      }
    }
  }

  lemma {:induction false} FlagElse(w: World, gs: set<nat>, f: Func, els: Else, s: St, sp: nat, fuel: nat)
    requires Closed(w.prog, gs) && QuietElse(els, gs)
    ensures KeptFlow(s, ExecElse(w, f, els, s, sp, fuel))
    decreases fuel, els, 1
  {
    hide Value, Eval, ExecAll, Closed, QuietAll, CallsOnly;
    match els
    case NoElse =>
    case ElseBlock(b) => FlagAll(w, gs, f, b, s, sp, fuel);
    case Elif(c, b, rest) =>
      FlagExpr(w, gs, f, c, s, sp, fuel);
      var p := Eval(w, f, c, s, sp, fuel);
      if p.Ok? {
        FlagAll(w, gs, f, b, p.value.0, sp, fuel);
        FlagElse(w, gs, f, rest, p.value.0, sp, fuel);
      }
  }

  // ---------- noint blocks ----------

  /** A noint block without another one inside it, or in anything it calls, holds to its end: when its statements
      have run the flag is still set.  After the block it is clear exactly when the block does not return: `return`
      leaves it set. */
  lemma NoIntHolds(w: World, gs: set<nat>, f: Func, body: Stmts, s: St, sp: nat, fuel: nat)
    requires Closed(w.prog, gs) && QuietAll(body, gs)
    ensures var inside := ExecAll(w, f, body, s.(noint := s.noint.Raised()), sp, fuel);
      inside.Ok? ==> inside.value.0.noint == s.noint.Raised()
    ensures var after := Exec(w, f, NoInt(body), s, sp, fuel);
      after.Ok? ==> after.value.0.noint == if after.value.1.Returned? then s.noint.Raised() else s.noint.Lowered()
  {
    hide ExecAll, Closed, QuietAll;
    FlagAll(w, gs, f, body, s.(noint := s.noint.Raised()), sp, fuel);
  }
}
