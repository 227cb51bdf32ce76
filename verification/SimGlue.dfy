/** The pre- and postcondition of the simulation of one expression, and the lemmas that take apart and put
    together runs of code. */
module SimGlue {
  import opened Options
  import opened Bytes
  import opened Words
  import opened Ast
  import opened Layout
  import opened Insn
  import opened Machine
  import opened Codegen
  import opened Source
  import opened SimBase
  import opened SimSteps
  import opened Shapes

  ghost predicate Ready(m: Image, c: Ctx, l: Local, s: St) {
    Compiled(m) && Within(m, c) && Match(c, l, s) && |l.stack| == m.w.cap
  }

  /** The code of e stands at the instruction pointer, e is well typed, its temporaries fit. */
  ghost predicate Pre(m: Image, c: Ctx, e: Expr, t: nat, l: Local, s: St) {
    && Ready(m, c, l, s)
    && Placed(m.code, c, l.ip, t, e)
    && !TypeOf(c.p, c.f, e).TErr?
    && Peak(c, e, t) <= |l.temps[0]|
  }

  /** k instructions of the code of e do what evaluating e does. */
  ghost predicate Post(m: Image, c: Ctx, e: Expr, t: nat, l: Local, s: St, fuel: nat, k: nat, l': Local) {
    var out := Eval(m.w, c.f, e, s, l.sp, fuel);
    if out.Ok? then
      && Mid(m, c, l, k, l', out.value.0, t) && l'.ip == l.ip + Len(e)
      && Denotes(c, l', out.value.1, ResOpd(c, e, t), TypeOf(c.p, c.f, e), t, TempEnd(c, e, t))
    else SimFail(m, l, k, Kind(out), fuel)
  }

  lemma Chain(m: Image, l: Local, k1: nat, l1: Local, k2: nat)
    requires Runs(m, l, k1, l1)
    ensures Run(m.code, l, k1 + k2, m.fill) == Run(m.code, l1, k2, m.fill)
  {
    hide Machine.Step;
    RunAdd(m.code, l, k1, k2, m.fill);
  }

  lemma ChainFail(m: Image, l: Local, k1: nat, l1: Local, k2: nat, kind: Failure, fuel: nat)
    requires Runs(m, l, k1, l1) && SimFail(m, l1, k2, kind, fuel)
    ensures SimFail(m, l, k1 + k2, kind, fuel)
  {
    hide Run;
    Chain(m, l, k1, l1, k2);
  }

  lemma MidTrans(m: Image, c: Ctx, l: Local, k: nat, l1: Local, s1: St, k2: nat, l2: Local, s2: St, t: nat, t1: nat)
    requires Mid(m, c, l, k, l1, s1, t) && Mid(m, c, l1, k2, l2, s2, t1) && t <= t1
    ensures Mid(m, c, l, k + k2, l2, s2, t)
  {
    hide Match;
    Chain(m, l, k, l1, k2);
    KeepTrans(c.frame, l, l1, l2, t, t1);
  }

  lemma Extend(m: Image, l: Local, k: nat, l1: Local, l2: Local)
    requires Runs(m, l, k, l1) && Machine.Step(m.code, l1, m.fill) == Next(l2)
    ensures Runs(m, l, k + 1, l2)
  {
    hide Machine.Step;
    Chain(m, l, k, l1, 1);
    assert Run(m.code, l2, 0, m.fill) == Next(l2);
  }

  /** What a successful simulation of e provides to whatever follows. */
  lemma Open(m: Image, c: Ctx, e: Expr, t: nat, l: Local, s: St, fuel: nat, k: nat, l': Local)
    requires Pre(m, c, e, t, l, s) && Post(m, c, e, t, l, s, fuel, k, l')
    requires Eval(m.w, c.f, e, s, l.sp, fuel).Ok?
    ensures var (s', r) := Eval(m.w, c.f, e, s, l.sp, fuel).value;
      && Mid(m, c, l, k, l', s', t) && l'.ip == l.ip + Len(e)
      && Denotes(c, l', r, ResOpd(c, e, t), TypeOf(c.p, c.f, e), t, TempEnd(c, e, t))
      && Ready(m, c, l', s') && Match(c, l', s') && Wf(c) && Runs(m, l, k, l') && Keep(c.frame, l, l', t)
      && l'.sp == l.sp && l'.temps != [] && l.temps != [] && |l'.temps[0]| == |l.temps[0]|
  {
    hide Eval, Denotes, Placed, Peak, TypeOf, Match, Compiled, Wf;
  }

  /** A failing subexpression makes the whole expression fail the same way. */
  lemma Fails(m: Image, c: Ctx, sub: Expr, e: Expr, t: nat, l: Local, s: St, fuel: nat, k: nat, l': Local)
    requires Post(m, c, sub, t, l, s, fuel, k, l')
    requires !Eval(m.w, c.f, sub, s, l.sp, fuel).Ok?
    requires Kind(Eval(m.w, c.f, e, s, l.sp, fuel)) == Kind(Eval(m.w, c.f, sub, s, l.sp, fuel))
    ensures Post(m, c, e, t, l, s, fuel, k, l')
  {
    hide Eval, SimFail;
  }

  /** The last instruction of an expression form, after k instructions reached l1. */
  lemma Finish(m: Image, c: Ctx, e: Expr, t: nat, l: Local, s: St, fuel: nat, k: nat, l1: Local, l': Local,
               tk: nat, tl: nat, th: nat)
    requires Runs(m, l, k, l1) && Keep(c.frame, l, l1, t) && l1.ip + 1 == l.ip + Len(e)
    requires var out := Eval(m.w, c.f, e, s, l.sp, fuel);
      && (out.Ok? || out.Undef?)
      && SimDo(m, c, l1, l', out, ResOpd(c, e, t), TypeOf(c.p, c.f, e), tk, tl, th)
    requires t <= tk && t <= tl && th <= TempEnd(c, e, t)
    ensures Post(m, c, e, t, l, s, fuel, k + 1, l')
  {
    hide Eval, Match, Machine.Step, Runs, TypeOf, ResOpd, TempEnd;
    if Eval(m.w, c.f, e, s, l.sp, fuel).Ok? {
      Extend(m, l, k, l1, l');
      KeepTrans(c.frame, l, l1, l', t, tk);
    }
  }

  /** Moving on to the next subexpression from a state reached by a previous one. */
  lemma Continue(m: Image, c: Ctx, e2: Expr, t: nat, t2: nat, l: Local, s: St, k: nat, l1: Local, s1: St)
    requires Ready(m, c, l, s) && Mid(m, c, l, k, l1, s1, t)
    requires Placed(m.code, c, l1.ip, t2, e2) && !TypeOf(c.p, c.f, e2).TErr? && Peak(c, e2, t2) <= |l.temps[0]|
    ensures Pre(m, c, e2, t2, l1, s1) && l1.sp == l.sp && l1.temps != [] && |l1.temps[0]| == |l.temps[0]|
  {
    hide Placed, TypeOf, Peak, Match, Compiled, Within, Runs;
  }

  /** The empty run. */
  lemma Here(m: Image, c: Ctx, e: Expr, t: nat, l: Local, s: St)
    requires Pre(m, c, e, t, l, s)
    ensures Runs(m, l, 0, l) && Keep(c.frame, l, l, t) && Match(c, l, s) && Wf(c) && Ready(m, c, l, s)
    ensures Mid(m, c, l, 0, l, s, t)
  {
    hide Placed, TypeOf, Compiled, Machine.Step, Wf;
    var p := Peak(c, e, t);
    assert p >= TempEnd(c, e, t) >= t;
  }

  lemma ReadyTemps(m: Image, c: Ctx, l: Local, s: St)
    requires Ready(m, c, l, s)
    ensures l.temps != [] && Wf(c) && Match(c, l, s) && Compiled(m) && Within(m, c) && |l.stack| == m.w.cap
  {
  }

  lemma SamePost(m: Image, c: Ctx, a: Expr, e: Expr, t: nat, l: Local, s: St, fuel: nat, k: nat, l': Local)
    requires Post(m, c, a, t, l, s, fuel, k, l')
    requires Eval(m.w, c.f, e, s, l.sp, fuel) == Eval(m.w, c.f, a, s, l.sp, fuel)
    requires Len(e) == Len(a) && ResOpd(c, e, t) == ResOpd(c, a, t) && TypeOf(c.p, c.f, e) == TypeOf(c.p, c.f, a)
    requires TempEnd(c, e, t) == TempEnd(c, a, t)
    ensures Post(m, c, e, t, l, s, fuel, k, l')
  {
    hide Eval, Len, ResOpd, TypeOf, TempEnd, SimFail, Mid, Denotes;
  }

  // ---------- one level of every definition ----------

  lemma UnfoldUPlus(m: Image, c: Ctx, e: Expr, t: nat, l: Local, s: St, fuel: nat)
    requires Pre(m, c, e, t, l, s) && e.UPlus?
    ensures Pre(m, c, e.e, t, l, s)
    ensures Eval(m.w, c.f, e, s, l.sp, fuel) == Eval(m.w, c.f, e.e, s, l.sp, fuel)
    ensures Len(e) == Len(e.e) && ResOpd(c, e, t) == ResOpd(c, e.e, t)
    ensures TypeOf(c.p, c.f, e) == TypeOf(c.p, c.f, e.e) && TempEnd(c, e, t) == TempEnd(c, e.e, t)
  {
    hide Ready;
  }

  lemma AssignTypes(c: Ctx, e: Expr)
    requires (e.Assign? || e.AssignOp?) && !TypeOf(c.p, c.f, e).TErr?
    ensures Modifiable(c.f, e.x) && Scalar(c.f, e.x) && Declared(c.f, e.x)
    ensures TypeOf(c.p, c.f, e) == TInt(VarTy(c, e.x)) && !TypeOf(c.p, c.f, e.rhs).TErr?
    ensures if e.Assign? then TypeOf(c.p, c.f, e.rhs) == TInt(VarTy(c, e.x))
            else BinOk(e.op, TInt(VarTy(c, e.x)), TypeOf(c.p, c.f, e.rhs))
  {
  }

  lemma AssignTemps(c: Ctx, e: Expr, t: nat)
    requires e.Assign? || e.AssignOp?
    ensures t <= TempEnd(c, e.rhs, t) <= TempEnd(c, e, t) <= Peak(c, e, t) && Peak(c, e.rhs, t) <= Peak(c, e, t)
    ensures Len(e) == Len(e.rhs) + 1 && ResOpd(c, e, t) == VarOpd(c, e.x)
  {
  }

  lemma AssignEval(w: World, f: Func, e: Expr, s: St, sp: nat, fuel: nat)
    requires (e.Assign? || e.AssignOp?) && !w.eager
    ensures var r, o := Eval(w, f, e.rhs, s, sp, fuel), Eval(w, f, e, s, sp, fuel);
      && (!r.Ok? ==> Kind(o) == Kind(r))
      && (r.Ok? ==> (o.Ok? || o.Undef?))
      && (r.Ok? ==> o == if e.Assign? then DoAssign(f, e.x, r.value.0, r.value.1)
                         else DoAssignOp(f, e.op, e.x, r.value.0, RVar(e.x), r.value.1))
  {
    hide DoAssign, DoAssignOp, Operand;
  }

  lemma UnfoldAssign(m: Image, c: Ctx, e: Expr, t: nat, l: Local, s: St, fuel: nat)
    requires Pre(m, c, e, t, l, s) && (e.Assign? || e.AssignOp?)
    ensures Pre(m, c, e.rhs, t, l, s) && Modifiable(c.f, e.x) && Scalar(c.f, e.x) && Declared(c.f, e.x)
    ensures t <= TempEnd(c, e.rhs, t) <= TempEnd(c, e, t) && TempEnd(c, e.rhs, t) <= |l.temps[0]|
    ensures Len(e) == Len(e.rhs) + 1 && ResOpd(c, e, t) == VarOpd(c, e.x)
    ensures TypeOf(c.p, c.f, e) == TInt(VarTy(c, e.x))
    ensures if e.Assign? then TypeOf(c.p, c.f, e.rhs) == TInt(VarTy(c, e.x))
            else BinOk(e.op, TInt(VarTy(c, e.x)), TypeOf(c.p, c.f, e.rhs))
    ensures At(m.code, l.ip + Len(e.rhs),
               if e.Assign? then Mov(VarOpd(c, e.x), ResOpd(c, e.rhs, t))
               else Bin(e.op, VarOpd(c, e.x), VarOpd(c, e.x), ResOpd(c, e.rhs, t)))
    ensures var r, o := Eval(m.w, c.f, e.rhs, s, l.sp, fuel), Eval(m.w, c.f, e, s, l.sp, fuel);
      && (!r.Ok? ==> Kind(o) == Kind(r))
      && (r.Ok? ==> o == (if e.Assign? then DoAssign(c.f, e.x, r.value.0, r.value.1)
                          else DoAssignOp(c.f, e.op, e.x, r.value.0, RVar(e.x), r.value.1)) && (o.Ok? || o.Undef?))
  {
    hide *;
    PreParts(m, c, e, t, l, s);
    AssignTypes(c, e);
    AssignTemps(c, e, t);
    AssignPlaced(m.code, c, l.ip, t, e);
    ReadyLazy(m, c, l, s);
    AssignEval(m.w, c.f, e, s, l.sp, fuel);
    MkPre(m, c, e.rhs, t, l, s);
  }

  lemma UnfoldBump(m: Image, c: Ctx, e: Expr, t: nat, l: Local, s: St, fuel: nat)
    requires Pre(m, c, e, t, l, s) && (e.PreInc? || e.PostInc?)
    ensures Modifiable(c.f, e.x) && TypeOf(c.p, c.f, e) == TInt(VarTy(c, e.x)) && Len(e) == 1
    ensures t <= TempEnd(c, e, t) <= |l.temps[0]|
    ensures Eval(m.w, c.f, e, s, l.sp, fuel) == DoBump(c.f, e.up, e.x, e.PostInc?, s)
    ensures Eval(m.w, c.f, e, s, l.sp, fuel).Ok? || Eval(m.w, c.f, e, s, l.sp, fuel).Undef?
    ensures e.PreInc? ==> At(m.code, l.ip, IncDec(e.up, VarOpd(c, e.x))) && ResOpd(c, e, t) == VarOpd(c, e.x) && TempEnd(c, e, t) == t
    ensures e.PostInc? ==> At(m.code, l.ip, IncDecP(e.up, TempAt(t, VarTy(c, e.x)), VarOpd(c, e.x)))
    ensures e.PostInc? ==> ResOpd(c, e, t) == TempAt(t, VarTy(c, e.x))
    ensures e.PostInc? ==> TempEnd(c, e, t) == AllocEnd(t, VarTy(c, e.x).Size())
  {
    hide Ready, DoBump;
  }

  /** The type of a unary operator's result, from its operand's. */
  function UnTy(e: Expr, a: ETy): Ty
    requires (e.Cast? || e.UMinus? || e.LNot? || e.BNot?) && a.TInt?
  {
    match e
    case Cast(_, to) => to
    case UMinus(_) => a.ty.Negated()
    case _ => a.ty
  }

  lemma UnaryTypes(c: Ctx, e: Expr)
    requires (e.Cast? || e.UMinus? || e.LNot? || e.BNot?) && !TypeOf(c.p, c.f, e).TErr?
    ensures TypeOf(c.p, c.f, e.e).TInt? && (e.BNot? ==> !TypeOf(c.p, c.f, e.e).ty.Signed())
    ensures TypeOf(c.p, c.f, e) == TInt(UnTy(e, TypeOf(c.p, c.f, e.e)))
    ensures e.Cast? ==> UnTy(e, TypeOf(c.p, c.f, e.e)) == e.to
    ensures e.UMinus? ==> UnTy(e, TypeOf(c.p, c.f, e.e)) == TypeOf(c.p, c.f, e.e).ty.Negated()
    ensures e.UMinus? ==> UnTy(e, TypeOf(c.p, c.f, e.e)).Size() == TypeOf(c.p, c.f, e.e).ty.Size()
    ensures e.LNot? || e.BNot? ==> UnTy(e, TypeOf(c.p, c.f, e.e)) == TypeOf(c.p, c.f, e.e).ty
  {
  }

  lemma UnaryTemps(c: Ctx, e: Expr, t: nat)
    requires (e.Cast? || e.UMinus? || e.LNot? || e.BNot?) && !TypeOf(c.p, c.f, e).TErr?
    ensures TypeOf(c.p, c.f, e).TInt?
    ensures var ty, t1 := TypeOf(c.p, c.f, e).ty, TempEnd(c, e.e, t);
      && ResOpd(c, e, t) == TempAt(t1, ty) && t <= t1 && TempEnd(c, e, t) == AllocEnd(t1, ty.Size())
      && TempEnd(c, e, t) <= Peak(c, e, t) && Peak(c, e.e, t) <= Peak(c, e, t) && Len(e) == Len(e.e) + 1
  {
    UnaryTypes(c, e);
    hide TypeOf;
  }

  lemma UnfoldUnary(m: Image, c: Ctx, e: Expr, t: nat, l: Local, s: St, fuel: nat)
    requires Pre(m, c, e, t, l, s) && (e.Cast? || e.UMinus? || e.LNot? || e.BNot?)
    ensures Pre(m, c, e.e, t, l, s) && TypeOf(c.p, c.f, e.e).TInt?
    ensures e.BNot? ==> !TypeOf(c.p, c.f, e.e).ty.Signed()
    ensures var ty, t1 := UnTy(e, TypeOf(c.p, c.f, e.e)), TempEnd(c, e.e, t);
      && TypeOf(c.p, c.f, e) == TInt(ty) && ResOpd(c, e, t) == TempAt(t1, ty)
      && t <= t1 && TempEnd(c, e, t) == AllocEnd(t1, ty.Size()) && TempEnd(c, e, t) <= |l.temps[0]|
    ensures Len(e) == Len(e.e) + 1
    ensures e.Cast? ==> UnTy(e, TypeOf(c.p, c.f, e.e)) == e.to
    ensures e.UMinus? ==> UnTy(e, TypeOf(c.p, c.f, e.e)) == TypeOf(c.p, c.f, e.e).ty.Negated()
    ensures e.UMinus? ==> UnTy(e, TypeOf(c.p, c.f, e.e)).Size() == TypeOf(c.p, c.f, e.e).ty.Size()
    ensures e.LNot? || e.BNot? ==> UnTy(e, TypeOf(c.p, c.f, e.e)) == TypeOf(c.p, c.f, e.e).ty
  {
    hide *;
    PreParts(m, c, e, t, l, s);
    UnaryTypes(c, e);
    UnaryTemps(c, e, t);
    UnaryPlaced(m.code, c, l.ip, t, e);
    MkPre(m, c, e.e, t, l, s);
  }

  lemma UnaryInsnAt(m: Image, c: Ctx, e: Expr, t: nat, l: Local, s: St)
    requires Pre(m, c, e, t, l, s) && (e.Cast? || e.UMinus? || e.LNot? || e.BNot?)
    ensures At(m.code, l.ip + Len(e.e),
      match e
      case Cast(_, _) => CastI(ResOpd(c, e, t), ResOpd(c, e.e, t))
      case UMinus(_) => Un(NegOp, ResOpd(c, e, t), ResOpd(c, e.e, t))
      case LNot(_) => Un(NotOp, ResOpd(c, e, t), ResOpd(c, e.e, t))
      case BNot(_) => Un(BnegOp, ResOpd(c, e, t), ResOpd(c, e.e, t)))
  {
    hide Pre, Ready, Placed, ResOpd, Len, TypeOf, Peak, At;
    PreParts(m, c, e, t, l, s);
    UnaryPlaced(m.code, c, l.ip, t, e);
  }

  lemma UnaryEval(w: World, f: Func, e: Expr, s: St, sp: nat, fuel: nat)
    requires e.Cast? || e.UMinus? || e.LNot? || e.BNot?
    ensures var r, o := Eval(w, f, e.e, s, sp, fuel), Eval(w, f, e, s, sp, fuel);
      && (!r.Ok? ==> Kind(o) == Kind(r))
      && (r.Ok? ==> (o.Ok? || o.Undef?) && o == match e
            case Cast(_, to) => DoCast(f, to, r.value.0, r.value.1)
            case UMinus(_) => DoMinus(f, r.value.0, r.value.1)
            case LNot(_) => DoNot(f, r.value.0, r.value.1)
            case BNot(_) => DoComplement(f, r.value.0, r.value.1))
  {
    hide DoCast, DoMinus, DoNot, DoComplement;
  }

  // ---------- two operands ----------

  ghost predicate PairPost(m: Image, c: Ctx, e: Expr, t: nat, l: Local, s: St, fuel: nat, k: nat, l': Local)
    requires e.Arith? || e.Cmp?
  {
    var out := EvalPair(m.w, c.f, e, s, l.sp, fuel);
    var t1 := TempEnd(c, e.l, t);
    if out.Ok? then
      && Mid(m, c, l, k, l', out.value.0, t) && l'.ip == l.ip + Len(e.l) + Len(e.r)
      && Denotes(c, l', out.value.1, ResOpd(c, e.l, t), TypeOf(c.p, c.f, e.l), t, t1)
      && Denotes(c, l', out.value.2, ResOpd(c, e.r, t1), TypeOf(c.p, c.f, e.r), t1, TempEnd(c, e.r, t1))
    else SimFail(m, l, k, Kind(out), fuel)
  }

  lemma BinOkTypes(op: ArithOp, a: ETy, b: ETy)
    requires BinOk(op, a, b)
    ensures a.TInt? && b.TInt?
  {
  }

  lemma PairTypes(c: Ctx, e: Expr)
    requires (e.Arith? || e.Cmp?) && !TypeOf(c.p, c.f, e).TErr?
    ensures BinOk(if e.Arith? then e.op else Add, TypeOf(c.p, c.f, e.l), TypeOf(c.p, c.f, e.r))
    ensures TypeOf(c.p, c.f, e) == (if e.Arith? then TypeOf(c.p, c.f, e.l) else TInt(U8))
  {
  }

  lemma PairTemps(c: Ctx, e: Expr, t: nat)
    requires (e.Arith? || e.Cmp?) && !TypeOf(c.p, c.f, e).TErr?
    ensures var t1 := TempEnd(c, e.l, t);
      var t2 := TempEnd(c, e.r, t1);
      && t <= t1 <= t2
      && TypeOf(c.p, c.f, e).TInt?
      && TempEnd(c, e, t) == AllocEnd(t2, TypeOf(c.p, c.f, e).ty.Size())
      && (e.Cmp? ==> TempEnd(c, e, t) == AllocEnd(t2, 1))
      && ResOpd(c, e, t) == TempAt(t2, TypeOf(c.p, c.f, e).ty)
      && Peak(c, e.l, t) <= Peak(c, e, t) && Peak(c, e.r, t1) <= Peak(c, e, t) && TempEnd(c, e, t) <= Peak(c, e, t)
      && Len(e) == Len(e.l) + Len(e.r) + 1
  {
    PairTypes(c, e);
    hide TypeOf;
  }

  lemma BinEval(w: World, f: Func, e: Expr, s: St, sp: nat, fuel: nat)
    requires e.Arith? || e.Cmp?
    ensures var r, o := EvalPair(w, f, e, s, sp, fuel), Eval(w, f, e, s, sp, fuel);
      && (!r.Ok? ==> Kind(o) == Kind(r))
      && (r.Ok? ==> (o.Ok? || o.Undef?))
      && (r.Ok? ==> o == if e.Arith? then DoArith(f, e.op, r.value.0, r.value.1, r.value.2)
                         else DoCmp(f, e.cmp, r.value.0, r.value.1, r.value.2))
  {
    hide DoArith, DoCmp, EvalPair;
  }

  lemma PreParts(m: Image, c: Ctx, e: Expr, t: nat, l: Local, s: St)
    requires Pre(m, c, e, t, l, s)
    ensures Ready(m, c, l, s) && Placed(m.code, c, l.ip, t, e) && !TypeOf(c.p, c.f, e).TErr?
    ensures l.temps != [] && Peak(c, e, t) <= |l.temps[0]| && Wf(c) && Match(c, l, s)
  {
    hide Placed, TypeOf, Peak, Compiled, Wf, Match;
    ReadyTemps(m, c, l, s);
  }

  lemma MkPre(m: Image, c: Ctx, e: Expr, t: nat, l: Local, s: St)
    requires Ready(m, c, l, s) && l.temps != []
    requires Placed(m.code, c, l.ip, t, e) && !TypeOf(c.p, c.f, e).TErr? && Peak(c, e, t) <= |l.temps[0]|
    ensures Pre(m, c, e, t, l, s)
  {
    hide Placed, TypeOf, Peak, Ready;
  }

  lemma UnfoldPair(m: Image, c: Ctx, e: Expr, t: nat, l: Local, s: St, fuel: nat)
    requires Pre(m, c, e, t, l, s) && (e.Arith? || e.Cmp?)
    ensures Pre(m, c, e.l, t, l, s) && Ready(m, c, l, s) && l.temps != []
    ensures var t1 := TempEnd(c, e.l, t);
      && t <= t1 && Placed(m.code, c, l.ip + Len(e.l), t1, e.r) && !TypeOf(c.p, c.f, e.r).TErr?
      && Peak(c, e.r, t1) <= |l.temps[0]|
  {
    hide *;
    PreParts(m, c, e, t, l, s);
    PairTypes(c, e);
    PairTemps(c, e, t);
    PairPlaced(m.code, c, l.ip, t, e);
    BinOkTypes(if e.Arith? then e.op else Add, TypeOf(c.p, c.f, e.l), TypeOf(c.p, c.f, e.r));
    MkPre(m, c, e.l, t, l, s);
  }

  lemma PairFails(m: Image, c: Ctx, e: Expr, t: nat, l: Local, s: St, fuel: nat, k: nat, l': Local)
    requires (e.Arith? || e.Cmp?) && Post(m, c, e.l, t, l, s, fuel, k, l')
    requires !Eval(m.w, c.f, e.l, s, l.sp, fuel).Ok?
    ensures PairPost(m, c, e, t, l, s, fuel, k, l')
  {
    hide Eval, SimFail;
  }

  lemma ReadyLazy(m: Image, c: Ctx, l: Local, s: St)
    requires Ready(m, c, l, s)
    ensures !m.w.eager
  {
    hide Within, Match, ProgramOk, FuncPlaced;
  }

  lemma PairDone(m: Image, c: Ctx, e: Expr, t: nat, l: Local, s: St, fuel: nat, k: nat, l1: Local, k2: nat, l2: Local)
    requires (e.Arith? || e.Cmp?) && !m.w.eager
    requires Post(m, c, e.l, t, l, s, fuel, k, l1) && Eval(m.w, c.f, e.l, s, l.sp, fuel).Ok? && l1.sp == l.sp
    requires Post(m, c, e.r, TempEnd(c, e.l, t), l1, Eval(m.w, c.f, e.l, s, l.sp, fuel).value.0, fuel, k2, l2)
    ensures PairPost(m, c, e, t, l, s, fuel, k + k2, l2)
  {
    hide Eval, SimFail, Match, Runs, Denotes, TypeOf, ResOpd, Len, Keep;
    var s1 := Eval(m.w, c.f, e.l, s, l.sp, fuel).value.0;
    var t1 := TempEnd(c, e.l, t);
    var out := Eval(m.w, c.f, e.r, s1, l.sp, fuel);
    if out.Ok? {
      MidTrans(m, c, l, k, l1, s1, k2, l2, out.value.0, t, t1);
      DenotesKept(c, l1, l2, Eval(m.w, c.f, e.l, s, l.sp, fuel).value.1, ResOpd(c, e.l, t), TypeOf(c.p, c.f, e.l), t, t1);
    } else {
      ChainFail(m, l, k, l1, k2, Kind(out), fuel);
    }
  }

  lemma PairOpen(m: Image, c: Ctx, e: Expr, t: nat, l: Local, s: St, fuel: nat, k: nat, l1: Local)
    requires (e.Arith? || e.Cmp?) && PairPost(m, c, e, t, l, s, fuel, k, l1)
    requires !EvalPair(m.w, c.f, e, s, l.sp, fuel).Ok? ==>
               Kind(Eval(m.w, c.f, e, s, l.sp, fuel)) == Kind(EvalPair(m.w, c.f, e, s, l.sp, fuel))
    ensures var out := EvalPair(m.w, c.f, e, s, l.sp, fuel);
      var t1 := TempEnd(c, e.l, t);
      if out.Ok? then
        && Mid(m, c, l, k, l1, out.value.0, t) && l1.ip == l.ip + Len(e.l) + Len(e.r)
        && Denotes(c, l1, out.value.1, ResOpd(c, e.l, t), TypeOf(c.p, c.f, e.l), t, t1)
        && Denotes(c, l1, out.value.2, ResOpd(c, e.r, t1), TypeOf(c.p, c.f, e.r), t1, TempEnd(c, e.r, t1))
        && Runs(m, l, k, l1) && Keep(c.frame, l, l1, t) && Match(c, l1, out.value.0)
        && l1.temps != [] && l.temps != [] && |l1.temps[0]| == |l.temps[0]|
      else Post(m, c, e, t, l, s, fuel, k, l1)
  {
    hide EvalPair, Eval, Denotes, Match, Runs, SimFail, TempEnd, ResOpd, TypeOf, Len;
  }

  lemma UnfoldBin(m: Image, c: Ctx, e: Expr, t: nat, l: Local, s: St, fuel: nat, k: nat, l1: Local)
    requires Pre(m, c, e, t, l, s) && (e.Arith? || e.Cmp?) && PairPost(m, c, e, t, l, s, fuel, k, l1)
    ensures var out := EvalPair(m.w, c.f, e, s, l.sp, fuel);
      var t1 := TempEnd(c, e.l, t);
      var t2 := TempEnd(c, e.r, t1);
      var tl, tr := TypeOf(c.p, c.f, e.l), TypeOf(c.p, c.f, e.r);
      var o := Eval(m.w, c.f, e, s, l.sp, fuel);
      if out.Ok? then
        && Mid(m, c, l, k, l1, out.value.0, t) && l1.ip == l.ip + Len(e.l) + Len(e.r)
        && Runs(m, l, k, l1) && Keep(c.frame, l, l1, t) && Match(c, l1, out.value.0) && Wf(c)
        && t <= t1 <= t2 && BinOk(if e.Arith? then e.op else Add, tl, tr)
        && Denotes(c, l1, out.value.1, ResOpd(c, e.l, t), tl, t, t1)
        && Denotes(c, l1, out.value.2, ResOpd(c, e.r, t1), tr, t1, t2)
        && l1.temps != []
        && TypeOf(c.p, c.f, e) == (if e.Arith? then tl else TInt(U8))
        && TempEnd(c, e, t) == AllocEnd(t2, TypeOf(c.p, c.f, e).ty.Size())
        && (e.Cmp? ==> TempEnd(c, e, t) == AllocEnd(t2, 1)) && TempEnd(c, e, t) <= |l1.temps[0]|
        && ResOpd(c, e, t) == TempAt(t2, TypeOf(c.p, c.f, e).ty)
        && Len(e) == Len(e.l) + Len(e.r) + 1
        && At(m.code, l1.ip, if e.Arith? then Bin(e.op, ResOpd(c, e, t), ResOpd(c, e.l, t), ResOpd(c, e.r, t1))
                             else CmpI(e.cmp, ResOpd(c, e, t), ResOpd(c, e.l, t), ResOpd(c, e.r, t1)))
        && o == (if e.Arith? then DoArith(c.f, e.op, out.value.0, out.value.1, out.value.2)
                 else DoCmp(c.f, e.cmp, out.value.0, out.value.1, out.value.2))
        && (o.Ok? || o.Undef?)
      else Post(m, c, e, t, l, s, fuel, k, l1)
  {
    hide *;
    PreParts(m, c, e, t, l, s);
    PairTypes(c, e);
    PairTemps(c, e, t);
    PairPlaced(m.code, c, l.ip, t, e);
    BinEval(m.w, c.f, e, s, l.sp, fuel);
    PairOpen(m, c, e, t, l, s, fuel, k, l1);
  }

  lemma MidFacts(m: Image, c: Ctx, l: Local, k: nat, l1: Local, s1: St, t: nat)
    requires Mid(m, c, l, k, l1, s1, t)
    ensures Runs(m, l, k, l1) && Keep(c.frame, l, l1, t) && Match(c, l1, s1)
    ensures l1.sp == l.sp && l1.bp == l.bp && |l1.stack| == |l.stack|
    ensures l1.temps != [] && l.temps != [] && |l1.temps[0]| == |l.temps[0]|
  {
  }

  // ---------- single steps inside an expression ----------

  lemma UndefPost(m: Image, c: Ctx, e: Expr, t: nat, l: Local, s: St, fuel: nat, k: nat, l': Local)
    requires Eval(m.w, c.f, e, s, l.sp, fuel).Undef?
    ensures Post(m, c, e, t, l, s, fuel, k, l')
  {
    hide Eval;
  }

  lemma StepMid(m: Image, c: Ctx, l: Local, k: nat, l1: Local, s1: St, t: nat, l2: Local, s2: St, r: Res,
                o: Opd, et: ETy, tk: nat, tl: nat, th: nat)
    requires Mid(m, c, l, k, l1, s1, t) && t <= tk
    requires SimDo(m, c, l1, l2, Ok((s2, r)), o, et, tk, tl, th)
    ensures Mid(m, c, l, k + 1, l2, s2, t) && l2.ip == l1.ip + 1 && Denotes(c, l2, r, o, et, tl, th)
    ensures Match(c, l2, s2) && Keep(c.frame, l1, l2, tk)
  {
    hide Match, Machine.Step, Denotes;
    Extend(m, l, k, l1, l2);
    KeepTrans(c.frame, l, l1, l2, t, tk);
  }

  lemma GotoMid(m: Image, c: Ctx, l: Local, k: nat, l1: Local, s1: St, t: nat, ip: nat)
    requires Mid(m, c, l, k, l1, s1, t) && Machine.Step(m.code, l1, m.fill) == Next(l1.(ip := ip))
    ensures Mid(m, c, l, k + 1, l1.(ip := ip), s1, t)
  {
    hide Machine.Step;
    Extend(m, l, k, l1, l1.(ip := ip));
    forall y | y in s1.vars ensures Holds(c, l1.(ip := ip), y, s1.vars[y]) {
      assert Holds(c, l1, y, s1.vars[y]);
    }
  }

  lemma GotoDenotes(c: Ctx, l: Local, r: Res, o: Opd, et: ETy, t: nat, t': nat, ip: nat)
    requires Denotes(c, l, r, o, et, t, t')
    ensures Denotes(c, l.(ip := ip), r, o, et, t, t')
  {
  }

  lemma MkPost(m: Image, c: Ctx, e: Expr, t: nat, l: Local, s: St, fuel: nat, k: nat, l': Local, s': St, r: Res,
               tl: nat, th: nat)
    requires Eval(m.w, c.f, e, s, l.sp, fuel) == Ok((s', r))
    requires Mid(m, c, l, k, l', s', t) && l'.ip == l.ip + Len(e)
    requires Denotes(c, l', r, ResOpd(c, e, t), TypeOf(c.p, c.f, e), tl, th) && t <= tl && th <= TempEnd(c, e, t)
    ensures Post(m, c, e, t, l, s, fuel, k, l')
  {
    hide Eval, Mid, Len, ResOpd, TypeOf, TempEnd;
  }

  // ---------- constants and names ----------

  lemma AtomPost(m: Image, c: Ctx, e: Expr, t: nat, l: Local, s: St, fuel: nat)
    requires Pre(m, c, e, t, l, s) && (e.Num? || e.Bool? || e.Name?) && Mid(m, c, l, 0, l, s, t)
    ensures Post(m, c, e, t, l, s, fuel, 0, l)
  {
    PreParts(m, c, e, t, l, s);
    hide Pre, Mid, Match, Wf;
    if e.Name? {
      SlotFacts(c, e.x);
    }
    assert Pow256(1) == 256 && Pow256(2) == 65536 && Pow256(4) == 0x1_0000_0000 && Pow256(8) == 0x1_0000_0000_0000_0000;
  }

  // ---------- the comma ----------

  lemma UnfoldComma(m: Image, c: Ctx, e: Expr, t: nat, l: Local, s: St, fuel: nat)
    requires Pre(m, c, e, t, l, s) && e.Comma?
    ensures Pre(m, c, e.l, t, l, s) && Ready(m, c, l, s) && l.temps != []
    ensures Placed(m.code, c, l.ip + Len(e.l), t, e.r) && !TypeOf(c.p, c.f, e.r).TErr?
    ensures Peak(c, e.r, t) <= |l.temps[0]|
    ensures var o, r := Eval(m.w, c.f, e, s, l.sp, fuel), Eval(m.w, c.f, e.l, s, l.sp, fuel);
      if r.Ok? then o == Eval(m.w, c.f, e.r, r.value.0, l.sp, fuel) else Kind(o) == Kind(r)
  {
    hide *;
    PreParts(m, c, e, t, l, s);
    CommaPlaced(m.code, c, l.ip, t, e);
    CommaTypes(c, e);
    CommaTemps(c, e, t);
    CommaEval(m.w, c.f, e, s, l.sp, fuel);
    MkPre(m, c, e.l, t, l, s);
  }

  lemma CommaTypes(c: Ctx, e: Expr)
    requires e.Comma? && !TypeOf(c.p, c.f, e).TErr?
    ensures !TypeOf(c.p, c.f, e.l).TErr? && !TypeOf(c.p, c.f, e.r).TErr?
  {
  }

  lemma CommaTemps(c: Ctx, e: Expr, t: nat)
    requires e.Comma?
    ensures Peak(c, e.l, t) <= Peak(c, e, t) && Peak(c, e.r, t) <= Peak(c, e, t)
  {
  }

  lemma CommaEval(w: World, f: Func, e: Expr, s: St, sp: nat, fuel: nat)
    requires e.Comma?
    ensures var o, r := Eval(w, f, e, s, sp, fuel), Eval(w, f, e.l, s, sp, fuel);
      if r.Ok? then o == Eval(w, f, e.r, r.value.0, sp, fuel) else Kind(o) == Kind(r)
  {
  }

  lemma CommaDone(m: Image, c: Ctx, e: Expr, t: nat, l: Local, s: St, fuel: nat, k: nat, l1: Local, s1: St,
                  k2: nat, l2: Local)
    requires e.Comma? && !TypeOf(c.p, c.f, e).TErr? && Mid(m, c, l, k, l1, s1, t) && l1.ip == l.ip + Len(e.l) && l1.sp == l.sp
    requires Post(m, c, e.r, t, l1, s1, fuel, k2, l2)
    requires Eval(m.w, c.f, e, s, l.sp, fuel) == Eval(m.w, c.f, e.r, s1, l.sp, fuel)
    ensures Post(m, c, e, t, l, s, fuel, k + k2, l2)
  {
    CommaStatic(c, e, t);
    hide Eval, Denotes, Match, Runs, Keep, ResOpd, TypeOf, TempEnd, Len, SimFail;
    var out := Eval(m.w, c.f, e.r, s1, l.sp, fuel);
    if out.Ok? {
      MidTrans(m, c, l, k, l1, s1, k2, l2, out.value.0, t, t);
    } else {
      ChainFail(m, l, k, l1, k2, Kind(out), fuel);
    }
  }

  lemma CommaStatic(c: Ctx, e: Expr, t: nat)
    requires e.Comma?
    ensures ResOpd(c, e, t) == ResOpd(c, e.r, t) && TempEnd(c, e, t) == TempEnd(c, e.r, t)
    ensures Len(e) == Len(e.l) + Len(e.r)
    ensures !TypeOf(c.p, c.f, e).TErr? ==> TypeOf(c.p, c.f, e) == TypeOf(c.p, c.f, e.r)
  {
  }

  // ---------- && and || ----------

  lemma LogicTypes(c: Ctx, e: Expr)
    requires (e.Conj? || e.Disj?) && !TypeOf(c.p, c.f, e).TErr?
    ensures BinOk(Add, TypeOf(c.p, c.f, e.l), TypeOf(c.p, c.f, e.r))
    ensures TypeOf(c.p, c.f, e.l).TInt? && TypeOf(c.p, c.f, e.r).TInt? && TypeOf(c.p, c.f, e) == TInt(U8)
  {
  }

  lemma LogicTemps(c: Ctx, e: Expr, t: nat)
    requires e.Conj? || e.Disj?
    ensures var t0 := TempEnd(c, e.l, t);
      var t1 := AllocEnd(t0, 1);
      && t <= t0 <= t1 <= TempEnd(c, e, t) && TempEnd(c, e, t) == TempEnd(c, e.r, t1)
      && ResOpd(c, e, t) == TempAt(t0, U8)
      && Peak(c, e.l, t) <= Peak(c, e, t) && Peak(c, e.r, t1) <= Peak(c, e, t) && TempEnd(c, e, t) <= Peak(c, e, t)
      && Len(e) == Len(e.l) + Len(e.r) + 4
  {
  }

  /** The left operand's value decides whether the right one is evaluated at all. */
  lemma LogicEval(w: World, f: Func, e: Expr, s: St, sp: nat, fuel: nat)
    requires e.Conj? || e.Disj?
    ensures var o, r := Eval(w, f, e, s, sp, fuel), Eval(w, f, e.l, s, sp, fuel);
      if !r.Ok? then Kind(o) == Kind(r)
      else
        var (s1, a) := r.value;
        var v := Value(f, s1, a);
        && (v.Ok? || v.Undef?)
        && (v.Undef? ==> o.Undef?)
        && (v.Ok? ==> DoTruth(f, s1, a) == Ok((s1, Truth(v.value.0 != 0))))
        && (v.Ok? && (v.value.0 == 0) == e.Conj? ==> o == Ok((s1, Truth(v.value.0 != 0))))
        && (v.Ok? && (v.value.0 == 0) != e.Conj? ==>
              var q := Eval(w, f, e.r, s1, sp, fuel);
              if !q.Ok? then Kind(o) == Kind(q)
              else o == DoTruth(f, q.value.0, q.value.1) && (o.Ok? || o.Undef?))
  {
  }

  lemma UnfoldLogic(m: Image, c: Ctx, e: Expr, t: nat, l: Local, s: St, fuel: nat)
    requires Pre(m, c, e, t, l, s) && (e.Conj? || e.Disj?)
    ensures Pre(m, c, e.l, t, l, s) && Ready(m, c, l, s) && l.temps != []
    ensures var t1 := AllocEnd(TempEnd(c, e.l, t), 1);
      && t <= TempEnd(c, e.l, t) <= t1 <= TempEnd(c, e, t) <= |l.temps[0]|
      && Peak(c, e.r, t1) <= |l.temps[0]|
  {
    hide *;
    PreParts(m, c, e, t, l, s);
    LogicTypes(c, e);
    LogicTemps(c, e, t);
    LogicPlaced(m.code, c, l.ip, t, e);
    MkPre(m, c, e.l, t, l, s);
  }

  /** From the evaluated left operand over OZ and the conditional jump. */
  lemma LogicLeft(m: Image, c: Ctx, e: Expr, t: nat, l: Local, s: St, fuel: nat, k: nat, l1: Local)
    returns (l3: Local)
    requires Pre(m, c, e, t, l, s) && (e.Conj? || e.Disj?)
    requires Post(m, c, e.l, t, l, s, fuel, k, l1) && Eval(m.w, c.f, e.l, s, l.sp, fuel).Ok?
    ensures var (s1, a) := Eval(m.w, c.f, e.l, s, l.sp, fuel).value;
      var v, t0 := Value(c.f, s1, a), TempEnd(c, e.l, t);
      v.Ok? ==>
        && Mid(m, c, l, k + 2, l3, s1, t)
        && Denotes(c, l3, Truth(v.value.0 != 0), TempAt(t0, U8), TInt(U8), t0, AllocEnd(t0, 1))
        && l3.ip == (if (v.value.0 == 0) == e.Conj? then l.ip + Len(e) else l.ip + Len(e.l) + 2)
  {
    hide *;
    AllocByte(t);
    UnfoldLogic(m, c, e, t, l, s, fuel);
    PreParts(m, c, e, t, l, s);
    LogicTypes(c, e);
    LogicTemps(c, e, t);
    LogicPlaced(m.code, c, l.ip, t, e);
    LogicEval(m.w, c.f, e, s, l.sp, fuel);
    Open(m, c, e.l, t, l, s, fuel, k, l1);
    var (s1, a) := Eval(m.w, c.f, e.l, s, l.sp, fuel).value;
    var t0, o, et, v := TempEnd(c, e.l, t), ResOpd(c, e.l, t), TypeOf(c.p, c.f, e.l), Value(c.f, s1, a);
    l3 := l1;
    if v.Ok? {
      var l2 := DoTruthSim(m, c, l1, s1, a, o, et, t, t0, t0);
      var res := Truth(v.value.0 != 0);
      StepMid(m, c, l, k, l1, s1, t, l2, s1, res, TempAt(t0, U8), TInt(U8), t0, t0, AllocEnd(t0, 1));
      DenotesKept(c, l1, l2, a, o, et, t, t0);
      ReadOpd(c, l2, s1, a, o, et, t, t0);
      var ip := if (v.value.0 == 0) == e.Conj? then l.ip + Len(e) else l2.ip + 1;
      JumpIs(m, l2, o, l.ip + Len(e), e.Conj?, v.value.1, v.value.0);
      l3 := l2.(ip := ip);
      GotoMid(m, c, l, k + 1, l2, s1, t, ip);
      GotoDenotes(c, l2, res, TempAt(t0, U8), TInt(U8), t0, AllocEnd(t0, 1), ip);
    }
  }

  /** Conditional jumps test the source value. */
  lemma JumpIs(m: Image, l: Local, cond: Opd, loc: nat, onZero: bool, ty: Ty, v: int)
    requires At(m.code, l.ip, if onZero then Jz(cond, loc) else Jnz(cond, loc))
    requires InBounds(l, cond) && cond.size == ty.Size() && ty.Holds(v) && Get(l, cond) == ty.Pat(v)
    ensures Machine.Step(m.code, l, m.fill) == Next(l.(ip := if (v == 0) == onZero then loc else l.ip + 1))
  {
    PatZero(ty.Signed(), ty.Size(), v);
  }

  lemma JmpIs(m: Image, l: Local, loc: nat)
    requires At(m.code, l.ip, Jmp(loc))
    ensures Machine.Step(m.code, l, m.fill) == Next(l.(ip := loc))
  {
  }

  /** AND with 1 or OR with 0 leaves a normalised byte as it is. */
  lemma MaskSim(m: Image, c: Ctx, l: Local, s: St, conj: bool, b: bool, td: nat)
    returns (l': Local)
    requires Wf(c) && Match(c, l, s) && AllocEnd(td, 1) <= |l.temps[0]|
    requires Denotes(c, l, Truth(b), TempAt(td, U8), TInt(U8), td, AllocEnd(td, 1))
    requires At(m.code, l.ip, MaskInsn(conj, TempAt(td, U8)))
    ensures SimDo(m, c, l, l', Ok((s, Truth(b))), TempAt(td, U8), TInt(U8), td, td, AllocEnd(td, 1))
  {
    var v := if b then 1 else 0;
    SmallPat(U8, b);
    MaskBits(b);
    ReadOpd(c, l, s, Truth(b), TempAt(td, U8), TInt(U8), td, AllocEnd(td, 1));
    hide Machine.Step, Match, Keep, Alu;
    StepBinIs(m, l, if conj then BAnd else BOr, TempAt(td, U8),
              if conj then Imm(false, 1, 1) else Imm(false, 0, 1), TempAt(td, U8), v);
    l' := ToTemp(m, c, l, s, td, U8, v);
  }

  lemma MaskBits(b: bool)
    ensures var v := if b then 1 else 0;
      && Alu(BAnd, false, 1, 1 % Pow256(1), v) == Some(v)
      && Alu(BOr, false, 1, 0 % Pow256(1), v) == Some(v)
  {
    assert Pow256(1) == 256;
    assert BitAnd(1, 1) == 1 && BitAnd(1, 0) == 0;
    assert BitXor(0, 1) == 1 && BitXor(0, 0) == 0;
  }

  /** From the evaluated right operand over OZ and the mask. */
  lemma LogicRight(m: Image, c: Ctx, e: Expr, t: nat, l: Local, s: St, fuel: nat, k: nat, l3: Local, s1: St,
                   k2: nat, l4: Local)
    returns (k': nat, l': Local)
    requires Pre(m, c, e, t, l, s) && (e.Conj? || e.Disj?)
    requires Mid(m, c, l, k, l3, s1, t) && l3.ip == l.ip + Len(e.l) + 2 && l3.sp == l.sp
    requires Pre(m, c, e.r, AllocEnd(TempEnd(c, e.l, t), 1), l3, s1)
    requires Post(m, c, e.r, AllocEnd(TempEnd(c, e.l, t), 1), l3, s1, fuel, k2, l4)
    requires var o, q := Eval(m.w, c.f, e, s, l.sp, fuel), Eval(m.w, c.f, e.r, s1, l.sp, fuel);
      if !q.Ok? then Kind(o) == Kind(q)
      else o == DoTruth(c.f, q.value.0, q.value.1) && (o.Ok? || o.Undef?)
    ensures Post(m, c, e, t, l, s, fuel, k', l')
  {
    hide *;
    AllocByte(t);
    k', l' := k + k2, l4;
    var q := Eval(m.w, c.f, e.r, s1, l.sp, fuel);
    var t0 := TempEnd(c, e.l, t);
    var t1 := AllocEnd(t0, 1);
    if !q.Ok? {
      FailsLater(m, c, e.r, e, t, t1, l, s, fuel, k, l3, s1, k2, l4);
    } else if Eval(m.w, c.f, e, s, l.sp, fuel).Undef? {
      UndefPost(m, c, e, t, l, s, fuel, k', l');
    } else {
      UnfoldLogic(m, c, e, t, l, s, fuel);
      PreParts(m, c, e, t, l, s);
      LogicTypes(c, e);
      LogicTemps(c, e, t);
      LogicPlaced(m.code, c, l.ip, t, e);
      Open(m, c, e.r, t1, l3, s1, fuel, k2, l4);
      MidFacts(m, c, l, k, l3, s1, t);
      var (s2, b) := q.value;
      MidTrans(m, c, l, k, l3, s1, k2, l4, s2, t, t1);
      var l5 := DoTruthSim(m, c, l4, s2, b, ResOpd(c, e.r, t1), TypeOf(c.p, c.f, e.r), t1, TempEnd(c, e.r, t1), t0);
      var y := TruthValue(c.f, s2, b);
      StepMid(m, c, l, k + k2, l4, s2, t, l5, s2, Truth(y), TempAt(t0, U8), TInt(U8), t0, t0, t1);
      MidFacts(m, c, l, k + k2 + 1, l5, s2, t);
      AllocByte(t0);
      l' := MaskSim(m, c, l5, s2, e.Conj?, y, t0);
      Finish(m, c, e, t, l, s, fuel, k + k2 + 1, l5, l', t0, t0, t1);
      k' := k + k2 + 2;
    }
  }

  lemma AllocByte(t: nat)
    ensures U8.Size() == 1 && IsWord(1)
  {
  }

  lemma TruthValue(f: Func, s: St, r: Res) returns (y: bool)
    ensures DoTruth(f, s, r).Ok? ==> DoTruth(f, s, r) == Ok((s, Truth(y)))
  {
    y := Value(f, s, r).Ok? && Value(f, s, r).value.0 != 0;
  }

  /** A failure of a later subexpression. */
  lemma FailsLater(m: Image, c: Ctx, sub: Expr, e: Expr, t: nat, t1: nat, l: Local, s: St, fuel: nat,
                   k: nat, l1: Local, s1: St, k2: nat, l2: Local)
    requires Mid(m, c, l, k, l1, s1, t) && Post(m, c, sub, t1, l1, s1, fuel, k2, l2)
    requires !Eval(m.w, c.f, sub, s1, l1.sp, fuel).Ok?
    requires Kind(Eval(m.w, c.f, e, s, l.sp, fuel)) == Kind(Eval(m.w, c.f, sub, s1, l1.sp, fuel))
    ensures Post(m, c, e, t, l, s, fuel, k + k2, l2)
  {
    hide Eval, SimFail, Match, Keep, Runs;
    ChainFail(m, l, k, l1, k2, Kind(Eval(m.w, c.f, sub, s1, l1.sp, fuel)), fuel);
  }

  // ---------- the ternary ----------

  lemma TernTypes(c: Ctx, e: Expr)
    requires e.Tern? && !TypeOf(c.p, c.f, e).TErr?
    ensures TypeOf(c.p, c.f, e.c).TInt? && TypeOf(c.p, c.f, e).TInt?
    ensures TypeOf(c.p, c.f, e.t) == TypeOf(c.p, c.f, e.f) == TypeOf(c.p, c.f, e)
  {
  }

  lemma TernTemps(c: Ctx, e: Expr, t: nat)
    requires e.Tern? && TypeOf(c.p, c.f, e).TInt?
    ensures ValTy(c, e) == TypeOf(c.p, c.f, e).ty
    ensures var t0, t1, ty := TempEnd(c, e.c, t), TernBase(c, e, t), TypeOf(c.p, c.f, e).ty;
      && t <= t0 <= t1 <= TempEnd(c, e, t) <= Peak(c, e, t) && t1 == AllocEnd(t0, ty.Size())
      && ResOpd(c, e, t) == TempAt(t0, ty)
      && Peak(c, e.c, t) <= Peak(c, e, t) && Peak(c, e.t, t1) <= Peak(c, e, t) && Peak(c, e.f, t1) <= Peak(c, e, t)
      && Len(e) == Len(e.c) + Len(e.t) + Len(e.f) + 4
  {
    hide TypeOf;
  }

  lemma TernEval(w: World, f: Func, e: Expr, s: St, sp: nat, fuel: nat)
    requires e.Tern?
    ensures var o, r := Eval(w, f, e, s, sp, fuel), Eval(w, f, e.c, s, sp, fuel);
      if !r.Ok? then Kind(o) == Kind(r)
      else
        var v := Value(f, r.value.0, r.value.1);
        && (v.Ok? || v.Undef?)
        && (v.Undef? ==> o.Undef?)
        && (v.Ok? ==>
              var q := Eval(w, f, if v.value.0 != 0 then e.t else e.f, r.value.0, sp, fuel);
              if !q.Ok? then Kind(o) == Kind(q)
              else o == DoSelect(f, q.value.0, q.value.1) && (o.Ok? || o.Undef?))
  {
    hide DoSelect;
  }

  lemma UnfoldTern(m: Image, c: Ctx, e: Expr, t: nat, l: Local, s: St, fuel: nat)
    requires Pre(m, c, e, t, l, s) && e.Tern?
    ensures Pre(m, c, e.c, t, l, s) && Ready(m, c, l, s) && l.temps != []
    ensures TypeOf(c.p, c.f, e).TInt? && Peak(c, e, t) <= |l.temps[0]|
  {
    hide *;
    PreParts(m, c, e, t, l, s);
    TernTypes(c, e);
    TernTemps(c, e, t);
    TernPlaced(m.code, c, l.ip, t, e);
    MkPre(m, c, e.c, t, l, s);
  }

  /** From the evaluated condition over the conditional jump into the chosen branch. */
  lemma TernJump(m: Image, c: Ctx, e: Expr, t: nat, l: Local, s: St, fuel: nat, k: nat, l1: Local)
    returns (l2: Local)
    requires Pre(m, c, e, t, l, s) && e.Tern? && TypeOf(c.p, c.f, e).TInt?
    requires Post(m, c, e.c, t, l, s, fuel, k, l1) && Eval(m.w, c.f, e.c, s, l.sp, fuel).Ok?
    ensures var (s1, a) := Eval(m.w, c.f, e.c, s, l.sp, fuel).value;
      var v, t1 := Value(c.f, s1, a), TernBase(c, e, t);
      v.Ok? ==>
        && Mid(m, c, l, k + 1, l2, s1, t) && l2.sp == l.sp
        && Pre(m, c, if v.value.0 != 0 then e.t else e.f, t1, l2, s1)
        && l2.ip == l.ip + Len(e.c) + 1 + if v.value.0 != 0 then 0 else Len(e.t) + 2
  {
    hide *;
    UnfoldTern(m, c, e, t, l, s, fuel);
    PreParts(m, c, e, t, l, s);
    TernTypes(c, e);
    TernTemps(c, e, t);
    TernPlaced(m.code, c, l.ip, t, e);
    TernEval(m.w, c.f, e, s, l.sp, fuel);
    Open(m, c, e.c, t, l, s, fuel, k, l1);
    var (s1, a) := Eval(m.w, c.f, e.c, s, l.sp, fuel).value;
    var v := Value(c.f, s1, a);
    l2 := l1;
    if v.Ok? {
      ReadOpd(c, l1, s1, a, ResOpd(c, e.c, t), TypeOf(c.p, c.f, e.c), t, TempEnd(c, e.c, t));
      var pb := l.ip + Len(e.c) + 1 + Len(e.t) + 2;
      JumpIs(m, l1, ResOpd(c, e.c, t), pb, true, v.value.1, v.value.0);
      l2 := l1.(ip := if v.value.0 == 0 then pb else l1.ip + 1);
      GotoMid(m, c, l, k, l1, s1, t, l2.ip);
      Continue(m, c, if v.value.0 != 0 then e.t else e.f, t, TernBase(c, e, t), l, s, k + 1, l2, s1);
    }
  }

  /** From the evaluated branch over the MOV into the result's slot, and over the jump past the other branch. */
  lemma TernDone(m: Image, c: Ctx, e: Expr, t: nat, l: Local, s: St, fuel: nat, yes: bool, k: nat, l2: Local, s1: St,
                 k2: nat, l3: Local)
    returns (k': nat, l': Local)
    requires Pre(m, c, e, t, l, s) && e.Tern? && TypeOf(c.p, c.f, e).TInt?
    requires Mid(m, c, l, k, l2, s1, t) && l2.sp == l.sp
    requires l2.ip == l.ip + Len(e.c) + 1 + if yes then 0 else Len(e.t) + 2
    requires Pre(m, c, if yes then e.t else e.f, TernBase(c, e, t), l2, s1)
    requires Post(m, c, if yes then e.t else e.f, TernBase(c, e, t), l2, s1, fuel, k2, l3)
    requires var o, q := Eval(m.w, c.f, e, s, l.sp, fuel), Eval(m.w, c.f, if yes then e.t else e.f, s1, l.sp, fuel);
      if !q.Ok? then Kind(o) == Kind(q)
      else o == DoSelect(c.f, q.value.0, q.value.1) && (o.Ok? || o.Undef?)
    ensures Post(m, c, e, t, l, s, fuel, k', l')
  {
    hide *;
    var b := if yes then e.t else e.f;
    var q := Eval(m.w, c.f, b, s1, l.sp, fuel);
    var t0, t1, ty := TempEnd(c, e.c, t), TernBase(c, e, t), TypeOf(c.p, c.f, e).ty;
    k', l' := k + k2, l3;
    if !q.Ok? {
      FailsLater(m, c, b, e, t, t1, l, s, fuel, k, l2, s1, k2, l3);
    } else if Eval(m.w, c.f, e, s, l.sp, fuel).Undef? {
      UndefPost(m, c, e, t, l, s, fuel, k', l');
    } else {
      PreParts(m, c, e, t, l, s);
      TernTypes(c, e);
      TernTemps(c, e, t);
      TernPlaced(m.code, c, l.ip, t, e);
      Open(m, c, b, t1, l2, s1, fuel, k2, l3);
      MidFacts(m, c, l, k, l2, s1, t);
      var (s2, r) := q.value;
      MidTrans(m, c, l, k, l2, s1, k2, l3, s2, t, t1);
      var l4 := DoSelectSim(m, c, l3, s2, r, ResOpd(c, b, t1), ty, t1, TempEnd(c, b, t1), t0);
      var (s3, res) := DoSelect(c.f, s2, r).value;
      StepMid(m, c, l, k + k2, l3, s2, t, l4, s3, res, TempAt(t0, ty), TInt(ty), t0, t0, t1);
      k', l' := k + k2 + 1, l4;
      if yes {
        JmpIs(m, l4, l.ip + Len(e));
        GotoMid(m, c, l, k', l4, s3, t, l.ip + Len(e));
        GotoDenotes(c, l4, res, TempAt(t0, ty), TInt(ty), t0, t1, l.ip + Len(e));
        k', l' := k' + 1, l4.(ip := l.ip + Len(e));
      }
      MkPost(m, c, e, t, l, s, fuel, k', l', s3, res, t0, t1);
    }
  }
}
