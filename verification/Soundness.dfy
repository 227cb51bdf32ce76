/** Type soundness of the language: a checked program never meets a value, a variable or a function of the wrong
    type; what is left undefined is only what the types do not speak about. */
module Soundness {
  import opened Options
  import opened Bytes
  import opened Words
  import opened Ast
  import opened Source

  /** Every initialised variable holds a value of its type. */
  ghost predicate Typed(f: Func, s: St) {
    forall x :: x in s.vars ==> Scalar(f, x) && f.vars[x].ty.value.Holds(s.vars[x])
  }

  /** An operand of the given type. */
  predicate HasType(f: Func, r: Res, t: ETy) {
    match r
    case RConst(v, ty) => t == TInt(ty) && ty.Holds(v)
    case RVal(v, ty) => t == TInt(ty) && ty.Holds(v)
    case RVar(x) => Scalar(f, x) && t == TInt(f.vars[x].ty.value)
    case RVoid => t.TVoid?
  }

  predicate WellTyped<T>(out: Outcome<T>) {
    out.Undef? ==> out.why != IllTyped
  }

  ghost predicate Sound(f: Func, out: Outcome<(St, Res)>, t: ETy) {
    && WellTyped(out)
    && (out.Ok? ==> Typed(f, out.value.0) && HasType(f, out.value.1, t))
  }

  /** A returned value has the function's type, and a function with a type returns a value. */
  predicate FlowOk(f: Func, flow: Flow) {
    flow.Returned? ==> ReturnOk(f, flow.v)
  }

  predicate ReturnOk(f: Func, v: Option<int>) {
    if v.Some? then f.ret.Some? && f.ret.value.Holds(v.value) else f.ret.None?
  }

  ghost predicate SoundFlow(f: Func, out: Outcome<(St, Flow)>) {
    && WellTyped(out)
    && (out.Ok? ==> Typed(f, out.value.0) && FlowOk(f, out.value.1))
  }

  ghost predicate WorldOk(w: World) {
    ProgramOk(w.prog) && |w.locals| == |w.prog|
  }

  // ---------- operators ----------

  /** Reading an operand gives a value of its type, unless it is an uninitialised variable. */
  lemma ValueSound(f: Func, s: St, r: Res, t: ETy)
    requires Typed(f, s) && HasType(f, r, t) && t.TInt?
    ensures var v := Value(f, s, r);
      (v == Undef(Uninitialised) && r.RVar?) || (v.Ok? && v.value.1 == t.ty && t.ty.Holds(v.value.0))
  {
  }

  lemma OperateSound(op: ArithOp, a: (int, Ty), b: (int, Ty))
    requires a.1.Holds(a.0) && b.1.Holds(b.0) && BinOk(op, TInt(a.1), TInt(b.1))
    ensures WellTyped(Operate(op, a, b)) && (Operate(op, a, b).Ok? ==> a.1.Holds(Operate(op, a, b).value))
  {
    hide SrcArith;
  }

  lemma StoreSound(f: Func, s: St, x: nat, v: (int, Ty))
    requires Typed(f, s) && Scalar(f, x) && v.1 == f.vars[x].ty.value && v.1.Holds(v.0)
    ensures Store(f, s, x, v) == Ok(s.(vars := s.vars[x := v.0])) && Typed(f, s.(vars := s.vars[x := v.0]))
  {
    hide Scalar;
  }

  lemma AssignSound(f: Func, x: nat, s: St, b: Res)
    requires Typed(f, s) && Scalar(f, x) && HasType(f, b, TInt(f.vars[x].ty.value))
    ensures Sound(f, DoAssign(f, x, s, b), TInt(f.vars[x].ty.value))
  {
    hide Value, Store, Typed;
    ValueSound(f, s, b, TInt(f.vars[x].ty.value));
    if Value(f, s, b).Ok? {
      StoreSound(f, s, x, Value(f, s, b).value);
    }
  }

  lemma AssignOpSound(f: Func, op: ArithOp, x: nat, s: St, a: Res, b: Res, tb: ETy)
    requires Typed(f, s) && Scalar(f, x) && tb.TInt? && HasType(f, a, TInt(f.vars[x].ty.value)) && HasType(f, b, tb)
    requires BinOk(op, TInt(f.vars[x].ty.value), tb)
    ensures Sound(f, DoAssignOp(f, op, x, s, a, b), TInt(f.vars[x].ty.value))
  {
    hide Value, Store, Typed, Operate, BinOk;
    ValueSound(f, s, a, TInt(f.vars[x].ty.value));
    ValueSound(f, s, b, tb);
    if Value(f, s, a).Ok? && Value(f, s, b).Ok? {
      var v, d := Value(f, s, a).value, Value(f, s, b).value;
      OperateSound(op, v, d);
      if Operate(op, v, d).Ok? {
        StoreSound(f, s, x, (Operate(op, v, d).value, v.1));
      }
    }
  }

  lemma PairSound(f: Func, s: St, a: Res, b: Res, ta: ETy, tb: ETy)
    requires Typed(f, s) && HasType(f, a, ta) && HasType(f, b, tb) && ta.TInt? && tb.TInt?
    ensures forall op :: BinOk(op, ta, tb) ==> Sound(f, DoArith(f, op, s, a, b), ta)
    ensures forall op :: Sound(f, DoCmp(f, op, s, a, b), TInt(U8))
  {
    hide Value, Typed, Operate, BinOk;
    ValueSound(f, s, a, ta);
    ValueSound(f, s, b, tb);
    if Value(f, s, a).Ok? && Value(f, s, b).Ok? {
      var x, y := Value(f, s, a).value, Value(f, s, b).value;
      forall op | BinOk(op, ta, tb) ensures Sound(f, DoArith(f, op, s, a, b), ta) {
        OperateSound(op, x, y);
      }
      forall op ensures U8.Holds(SrcCmp(op, x.0, y.0)) {
        BitHolds(SrcCmp(op, x.0, y.0));
      }
    }
  }

  lemma BitHolds(v: int)
    requires v == 0 || v == 1
    ensures forall ty: Ty :: ty.Holds(v)
  {
    forall ty: Ty ensures ty.Holds(v) {
      Pow256Mono(1, ty.Size());
      SmallPowers();
    }
  }

  lemma UnarySound(f: Func, s: St, a: Res, t: ETy)
    requires Typed(f, s) && HasType(f, a, t) && t.TInt?
    ensures Sound(f, DoTruth(f, s, a), TInt(U8)) && Sound(f, DoSelect(f, s, a), t) && Sound(f, DoNot(f, s, a), t)
    ensures forall to :: Sound(f, DoCast(f, to, s, a), TInt(to))
    ensures Sound(f, DoMinus(f, s, a), TInt(t.ty.Negated()))
    ensures !t.ty.Signed() ==> Sound(f, DoComplement(f, s, a), t)
  {
    hide Value, Typed, Minus, Complement;
    ValueSound(f, s, a, t);
    BitHolds(0);
    BitHolds(1);
    if Value(f, s, a).Ok? {
      MinusSound(Value(f, s, a).value);
    }
  }

  lemma MinusSound(v: (int, Ty))
    requires v.1.Holds(v.0)
    ensures WellTyped(Minus(v)) && (Minus(v).Ok? ==> v.1.Negated().Holds(Minus(v).value))
  {
    hide Fit;
  }

  lemma BumpSound(f: Func, up: bool, x: nat, post: bool, s: St)
    requires Typed(f, s) && Scalar(f, x)
    ensures Sound(f, DoBump(f, up, x, post, s), TInt(f.vars[x].ty.value))
  {
    hide Value, Typed, Fit, Store;
    ValueSound(f, s, RVar(x), TInt(f.vars[x].ty.value));
    if Value(f, s, RVar(x)).Ok? {
      var v := Value(f, s, RVar(x)).value;
      var n := Fit(v.1, v.0 + Step1(up));
      if n.Some? {
        StoreSound(f, s, x, (n.value, v.1));
      }
    }
  }

  lemma OperandSound(w: World, f: Func, s: St, a: Res, t: ETy)
    requires Typed(f, s) && HasType(f, a, t) && t.TInt?
    ensures WellTyped(Operand(w, f, s, a)) && (Operand(w, f, s, a).Ok? ==> HasType(f, Operand(w, f, s, a).value, t))
  {
    hide Value, Typed;
    ValueSound(f, s, a, t);
  }

  lemma BindSound(g: Func, vals: seq<int>, s: St)
    requires |vals| <= |g.vars| && s.vars == Bind(vals)
    requires forall i :: 0 <= i < |vals| ==> Scalar(g, i) && g.vars[i].ty.value.Holds(vals[i])
    ensures Typed(g, s)
  {
  }

  // ---------- expressions ----------

  lemma {:induction false} ExprSound(w: World, f: Func, e: Expr, s: St, sp: nat, fuel: nat)
    requires WorldOk(w) && Typed(f, s) && !TypeOf(w.prog, f, e).TErr?
    ensures Sound(f, Eval(w, f, e, s, sp, fuel), TypeOf(w.prog, f, e))
    decreases fuel, e, 2
  {
    hide Value, Operand, DoAssign, DoAssignOp, DoTruth, DoCast, DoMinus, DoNot, DoComplement, DoBump, DoSelect, DoArith, DoCmp;
    hide EvalCall, EvalPair, Typed, HasType, WorldOk, Scalar, BinOk, Declared;
    match e
    case Num(v) => NumSound(f, v);
    case Bool(b) => BoolSound(f, b);
    case Name(x) => NameSound(f, x);
    case Assign(_, _) => StoresSound(w, f, e, s, sp, fuel);
    case AssignOp(_, _, _) => StoresSound(w, f, e, s, sp, fuel);
    case PreInc(_, _) => StoresSound(w, f, e, s, sp, fuel);
    case PostInc(_, _) => StoresSound(w, f, e, s, sp, fuel);
    case Arith(_, _, _) => BinarySound(w, f, e, s, sp, fuel);
    case Cmp(_, _, _) => BinarySound(w, f, e, s, sp, fuel);
    case Conj(_, _) => TwoSound(w, f, e, s, sp, fuel);
    case Disj(_, _) => TwoSound(w, f, e, s, sp, fuel);
    case Comma(_, _) => TwoSound(w, f, e, s, sp, fuel);
    case UPlus(a) => ExprSound(w, f, a, s, sp, fuel);
    case Cast(_, _) => OneSound(w, f, e, s, sp, fuel);
    case UMinus(_) => OneSound(w, f, e, s, sp, fuel);
    case LNot(_) => OneSound(w, f, e, s, sp, fuel);
    case BNot(_) => OneSound(w, f, e, s, sp, fuel);
    case Tern(_, _, _) => TernSound(w, f, e, s, sp, fuel);
    case Call(g, args) =>
      CallParts(w, f, e);
      CallSound(w, f, g, args, s, sp, fuel);
  }

  lemma NumSound(f: Func, v: nat)
    requires v < 0x1_0000_0000_0000_0000
    ensures HasType(f, RConst(v, NumTy(v)), TInt(NumTy(v)))
  {
    SmallPowers();
    assert Pow256(8) == 256 * (256 * (256 * (256 * Pow256(4))));
  }

  lemma BoolSound(f: Func, b: bool)
    ensures HasType(f, RConst(if b then 1 else 0, U8), TInt(U8)) && HasType(f, Truth(b), TInt(U8))
  {
    BitHolds(if b then 1 else 0);
  }

  lemma NameSound(f: Func, x: nat)
    requires Scalar(f, x)
    ensures HasType(f, RVar(x), TInt(f.vars[x].ty.value))
  {
  }

  lemma StoreTypes(p: Program, f: Func, e: Expr)
    requires !TypeOf(p, f, e).TErr? && (e.Assign? || e.AssignOp? || e.PreInc? || e.PostInc?)
    ensures Scalar(f, e.x) && TypeOf(p, f, e) == TInt(f.vars[e.x].ty.value)
    ensures e.Assign? ==> TypeOf(p, f, e.rhs) == TInt(f.vars[e.x].ty.value)
    ensures e.AssignOp? ==> BinOk(e.op, TInt(f.vars[e.x].ty.value), TypeOf(p, f, e.rhs)) && TypeOf(p, f, e.rhs).TInt?
  {
  }

  lemma {:induction false} StoresSound(w: World, f: Func, e: Expr, s: St, sp: nat, fuel: nat)
    requires WorldOk(w) && Typed(f, s) && !TypeOf(w.prog, f, e).TErr?
    requires e.Assign? || e.AssignOp? || e.PreInc? || e.PostInc?
    ensures Sound(f, Eval(w, f, e, s, sp, fuel), TypeOf(w.prog, f, e))
    decreases fuel, e, 1
  {
    hide Value, Operand, DoAssign, DoAssignOp, DoTruth, DoCast, DoMinus, DoNot, DoComplement, DoBump, DoSelect, DoArith, DoCmp;
    hide EvalCall, EvalPair, Typed, HasType, WorldOk, Scalar, BinOk, Declared;
    StoreTypes(w.prog, f, e);
    NameSound(f, e.x);
    hide TypeOf;
    if e.PreInc? || e.PostInc? {
      BumpSound(f, e.up, e.x, e.PostInc?, s);
    } else {
      ExprSound(w, f, e.rhs, s, sp, fuel);
      var r := Eval(w, f, e.rhs, s, sp, fuel);
      if e.Assign? {
        if r.Ok? {
          AssignSound(f, e.x, r.value.0, r.value.1);
        }
      } else {
        OperandSound(w, f, s, RVar(e.x), TInt(f.vars[e.x].ty.value));
        var a := Operand(w, f, s, RVar(e.x));
        if a.Ok? && r.Ok? {
          AssignOpSound(f, e.op, e.x, r.value.0, a.value, r.value.1, TypeOf(w.prog, f, e.rhs));
        }
      }
    }
  }

  lemma PairTypes(p: Program, f: Func, e: Expr)
    requires !TypeOf(p, f, e).TErr? && (e.Arith? || e.Cmp? || e.Conj? || e.Disj?)
    ensures TypeOf(p, f, e.l).TInt? && TypeOf(p, f, e.r).TInt?
    ensures TypeOf(p, f, e) == if e.Arith? then TypeOf(p, f, e.l) else TInt(U8)
    ensures BinOk(if e.Arith? then e.op else Add, TypeOf(p, f, e.l), TypeOf(p, f, e.r))
  {
  }

  lemma {:induction false} BinarySound(w: World, f: Func, e: Expr, s: St, sp: nat, fuel: nat)
    requires WorldOk(w) && Typed(f, s) && !TypeOf(w.prog, f, e).TErr? && (e.Arith? || e.Cmp?)
    ensures Sound(f, Eval(w, f, e, s, sp, fuel), TypeOf(w.prog, f, e))
    decreases fuel, e, 1
  {
    hide Value, Operand, DoArith, DoCmp, EvalCall, Typed, HasType, WorldOk, Scalar, BinOk;
    PairTypes(w.prog, f, e);
    hide TypeOf;
    ExprSound(w, f, e.l, s, sp, fuel);
    var p := Eval(w, f, e.l, s, sp, fuel);
    if p.Ok? {
      OperandSound(w, f, p.value.0, p.value.1, TypeOf(w.prog, f, e.l));
      ExprSound(w, f, e.r, p.value.0, sp, fuel);
      var o := EvalPair(w, f, e, s, sp, fuel);
      if o.Ok? {
        PairSound(f, o.value.0, o.value.1, o.value.2, TypeOf(w.prog, f, e.l), TypeOf(w.prog, f, e.r));
      }
    }
  }

  lemma CommaTypes(p: Program, f: Func, e: Expr)
    requires !TypeOf(p, f, e).TErr? && e.Comma?
    ensures !TypeOf(p, f, e.l).TErr? && TypeOf(p, f, e) == TypeOf(p, f, e.r)
  {
  }

  lemma {:induction false} TwoSound(w: World, f: Func, e: Expr, s: St, sp: nat, fuel: nat)
    requires WorldOk(w) && Typed(f, s) && !TypeOf(w.prog, f, e).TErr? && (e.Conj? || e.Disj? || e.Comma?)
    ensures Sound(f, Eval(w, f, e, s, sp, fuel), TypeOf(w.prog, f, e))
    decreases fuel, e, 1
  {
    hide Value, DoTruth, EvalCall, Typed, HasType, WorldOk, Scalar, BinOk, Truth;
    if e.Comma? {
      CommaTypes(w.prog, f, e);
    } else {
      PairTypes(w.prog, f, e);
    }
    hide TypeOf;
    ExprSound(w, f, e.l, s, sp, fuel);
    var p := Eval(w, f, e.l, s, sp, fuel);
    if p.Ok? {
      BoolSound(f, false);
      BoolSound(f, true);
      if !e.Comma? {
        ValueSound(f, p.value.0, p.value.1, TypeOf(w.prog, f, e.l));
      }
      ExprSound(w, f, e.r, p.value.0, sp, fuel);
      var q := Eval(w, f, e.r, p.value.0, sp, fuel);
      if q.Ok? && !e.Comma? {
        UnarySound(f, q.value.0, q.value.1, TypeOf(w.prog, f, e.r));
      }
    }
  }

  lemma UnaryTypes(p: Program, f: Func, e: Expr)
    requires !TypeOf(p, f, e).TErr? && (e.Cast? || e.UMinus? || e.LNot? || e.BNot?)
    ensures TypeOf(p, f, e.e).TInt? && (e.BNot? ==> !TypeOf(p, f, e.e).ty.Signed())
    ensures TypeOf(p, f, e) == if e.Cast? then TInt(e.to)
                               else if e.UMinus? then TInt(TypeOf(p, f, e.e).ty.Negated())
                               else TypeOf(p, f, e.e)
  {
  }

  lemma {:induction false} OneSound(w: World, f: Func, e: Expr, s: St, sp: nat, fuel: nat)
    requires WorldOk(w) && Typed(f, s) && !TypeOf(w.prog, f, e).TErr? && (e.Cast? || e.UMinus? || e.LNot? || e.BNot?)
    ensures Sound(f, Eval(w, f, e, s, sp, fuel), TypeOf(w.prog, f, e))
    decreases fuel, e, 1
  {
    hide Value, Operand, DoAssign, DoAssignOp, DoTruth, DoCast, DoMinus, DoNot, DoComplement, DoBump, DoSelect, DoArith, DoCmp;
    hide EvalCall, EvalPair, Typed, HasType, WorldOk, Scalar, BinOk, Declared;
    UnaryTypes(w.prog, f, e);
    hide TypeOf;
    ExprSound(w, f, e.e, s, sp, fuel);
    var p := Eval(w, f, e.e, s, sp, fuel);
    if p.Ok? {
      UnarySound(f, p.value.0, p.value.1, TypeOf(w.prog, f, e.e));
    }
  }

  lemma TernTypes(p: Program, f: Func, e: Expr)
    requires !TypeOf(p, f, e).TErr? && e.Tern?
    ensures TypeOf(p, f, e.c).TInt? && TypeOf(p, f, e.t).TInt?
    ensures TypeOf(p, f, e.t) == TypeOf(p, f, e.f) == TypeOf(p, f, e)
  {
  }

  lemma {:induction false} TernSound(w: World, f: Func, e: Expr, s: St, sp: nat, fuel: nat)
    requires WorldOk(w) && Typed(f, s) && !TypeOf(w.prog, f, e).TErr? && e.Tern?
    ensures Sound(f, Eval(w, f, e, s, sp, fuel), TypeOf(w.prog, f, e))
    decreases fuel, e, 1
  {
    hide Value, DoSelect, EvalCall, Typed, HasType, WorldOk, Scalar, BinOk;
    TernTypes(w.prog, f, e);
    hide TypeOf;
    ExprSound(w, f, e.c, s, sp, fuel);
    var p := Eval(w, f, e.c, s, sp, fuel);
    if p.Ok? {
      ValueSound(f, p.value.0, p.value.1, TypeOf(w.prog, f, e.c));
      if Value(f, p.value.0, p.value.1).Ok? {
        var b := if Value(f, p.value.0, p.value.1).value.0 != 0 then e.t else e.f;
        ExprSound(w, f, b, p.value.0, sp, fuel);
        var q := Eval(w, f, b, p.value.0, sp, fuel);
        if q.Ok? {
          UnarySound(f, q.value.0, q.value.1, TypeOf(w.prog, f, e));
        }
      }
    }
  }

  // ---------- calls ----------

  lemma CallParts(w: World, f: Func, e: Expr)
    requires WorldOk(w) && !TypeOf(w.prog, f, e).TErr? && e.Call?
    ensures e.g < |w.prog| && e.g < |w.locals| && ArgsOk(w.prog, f, e.args, w.prog[e.g], 0)
    ensures TypeOf(w.prog, f, e) == RetType(w.prog[e.g])
  {
    hide ProgramOk, ArgsOk;
  }

  function RetType(g: Func): ETy {
    if g.ret.Some? then TInt(g.ret.value) else TVoid
  }

  lemma FuncFacts(w: World, g: nat)
    requires WorldOk(w) && g < |w.prog|
    ensures StmtsOk(w.prog, w.prog[g], w.prog[g].body) && w.prog[g].params <= |w.prog[g].vars| && g < |w.locals|
  {
    assert FuncOk(w.prog, w.prog[g]);
    hide StmtsOk;
  }

  predicate ArgHolds(g: Func, i: nat, v: int) {
    Scalar(g, i) && g.vars[i].ty.value.Holds(v)
  }

  /** The values fit the parameters from number i on. */
  ghost predicate ArgsHold(g: Func, i: nat, vals: seq<int>) {
    i + |vals| <= |g.vars| && forall k :: 0 <= k < |vals| ==> ArgHolds(g, i + k, vals[k])
  }

  lemma {:induction false} CallSound(w: World, f: Func, g: nat, args: Args, s: St, sp: nat, fuel: nat)
    requires WorldOk(w) && Typed(f, s) && g < |w.prog| && g < |w.locals| && ArgsOk(w.prog, f, args, w.prog[g], 0)
    ensures Sound(f, EvalCall(w, f, g, args, s, sp, fuel), RetType(w.prog[g]))
    decreases fuel, args, 2
  {
    hide EvalArgs, EvalBody, WorldOk, ArgsOk, ArgsHold, Scalar;
    FuncFacts(w, g);
    ArgsSound(w, f, args, w.prog[g], 0, s, sp + 16, fuel);
    var a := EvalArgs(w, f, args, s, sp + 16, fuel);
    if a.Ok? && fuel > 0 {
      BodySound(w, g, a.value.1, a.value.0.noint, a.value.0.passed, a.value.2, fuel - 1);
    }
  }

  lemma {:induction false} ArgsSound(w: World, f: Func, args: Args, g: Func, i: nat, s: St, sp: nat, fuel: nat)
    requires WorldOk(w) && Typed(f, s) && ArgsOk(w.prog, f, args, g, i) && g.params <= |g.vars|
    ensures var o := EvalArgs(w, f, args, s, sp, fuel);
      && WellTyped(o)
      && (o.Ok? ==> Typed(f, o.value.0) && i + |o.value.1| == g.params && ArgsHold(g, i, o.value.1))
    decreases fuel, args, 1
  {
    hide Value, Eval, WorldOk, Typed, HasType, TypeOf, Scalar;
    if args.Arg? {
      ExprSound(w, f, args.head, s, sp, fuel);
      var p := Eval(w, f, args.head, s, sp, fuel);
      if p.Ok? {
        ValueSound(f, p.value.0, p.value.1, TypeOf(w.prog, f, args.head));
        ArgsSound(w, f, args.tail, g, i + 1, p.value.0, sp + 8, fuel);
        var q := EvalArgs(w, f, args.tail, p.value.0, sp + 8, fuel);
        if Value(f, p.value.0, p.value.1).Ok? && q.Ok? {
          ArgsCons(g, i, Value(f, p.value.0, p.value.1).value.0, q.value.1);
        }
      }
    }
  }

  lemma ArgsCons(g: Func, i: nat, v: int, vs: seq<int>)
    requires ArgHolds(g, i, v) && ArgsHold(g, i + 1, vs)
    ensures ArgsHold(g, i, [v] + vs)
  {
    hide ArgHolds;
    forall k | 0 <= k < |[v] + vs| ensures ArgHolds(g, i + k, ([v] + vs)[k]) {
      if k > 0 {
        assert ([v] + vs)[k] == vs[k - 1];
        assert ArgHolds(g, i + 1 + (k - 1), vs[k - 1]);
      }
    }
  }

  /** A checked program never goes wrong for a typing reason: a call is undefined only because a variable is read
      before it is initialised, an operation has no result, or a function that returns a value ends without one. */
  lemma {:induction false} BodySound(w: World, g: nat, vals: seq<int>, noint: Flag, passed: Label, sp: nat, fuel: nat)
    requires WorldOk(w) && g < |w.prog| && g < |w.locals| && |vals| == w.prog[g].params && ArgsHold(w.prog[g], 0, vals)
    ensures var o := EvalBody(w, g, vals, noint, passed, sp, fuel);
      WellTyped(o) && (o.Ok? ==> ReturnOk(w.prog[g], o.value.v))
    decreases fuel, w.prog[g].body, 2
  {
    hide ExecAll, WorldOk, Typed, StmtsOk, Bind, ArgsHold;
    FuncFacts(w, g);
    var f := w.prog[g];
    var s := St(Bind(vals), noint, passed);
    BindTyped(f, vals, s);
    AllSound(w, f, f.body, s, sp + w.locals[g], fuel);
  }

  lemma BindTyped(g: Func, vals: seq<int>, s: St)
    requires ArgsHold(g, 0, vals) && s.vars == Bind(vals)
    ensures Typed(g, s)
  {
    forall i | 0 <= i < |vals| ensures Scalar(g, i) && g.vars[i].ty.value.Holds(vals[i]) {
      assert ArgHolds(g, 0 + i, vals[i]);
    }
    BindSound(g, vals, s);
  }

  // ---------- statements ----------

  lemma {:induction false} InitSound(f: Func, names: seq<nat>, s: St, r: Res, t: ETy)
    requires Typed(f, s) && HasType(f, r, t) && t.TInt?
    requires forall x :: x in names ==> Scalar(f, x) && t == TInt(f.vars[x].ty.value)
    ensures WellTyped(InitAll(f, names, s, r)) && (InitAll(f, names, s, r).Ok? ==> Typed(f, InitAll(f, names, s, r).value))
    decreases |names|
  {
    hide Value, Store, Typed, HasType, Scalar;
    if names != [] {
      ValueSound(f, s, r, t);
      if Value(f, s, r).Ok? {
        var v := Value(f, s, r).value;
        StoreSound(f, s, names[0], v);
        InitSound(f, names[1..], s.(vars := s.vars[names[0] := v.0]), r, t);
      }
    }
  }

  lemma {:induction false} StmtSound(w: World, f: Func, st: Stmt, s: St, sp: nat, fuel: nat)
    requires WorldOk(w) && Typed(f, s) && StmtOk(w.prog, f, st)
    ensures SoundFlow(f, Exec(w, f, st, s, sp, fuel))
    decreases fuel, st, 1
  {
    hide Value, Eval, ExecAll, ExecElse, InitAll, WorldOk, StmtsOk, ElseOk, TypeOf, Scalar, HasType, Typed, Declared;
    match st
    case Decl(names, init) =>
      if init.Some? {
        ExprSound(w, f, init.value, s, sp, fuel);
        var p := Eval(w, f, init.value, s, sp, fuel);
        if p.Ok? {
          if names == [] {
            assert InitAll(f, names, p.value.0, p.value.1) == Ok(p.value.0) by { NoNames(f, names, p.value.0, p.value.1); }
          } else {
            assert names[0] in names;
            InitSound(f, names, p.value.0, p.value.1, TypeOf(w.prog, f, init.value));
          }
        }
      }
    case ExprS(e) => ExprSound(w, f, e, s, sp, fuel);
    case Block(b) => AllSound(w, f, b, s, sp, fuel);
    case NoInt(b) =>
      SameVars(f, s, s.(noint := s.noint.Raised()));
      AllSound(w, f, b, s.(noint := s.noint.Raised()), sp, fuel);
      var p := ExecAll(w, f, b, s.(noint := s.noint.Raised()), sp, fuel);
      if p.Ok? {
        SameVars(f, p.value.0, p.value.0.(noint := p.value.0.noint.Lowered()));
      }
    case If(els) => ElseSound(w, f, els, s, sp, fuel);
    case While(_, _) => WhileSound(w, f, st, s, sp, fuel);
    case DoWhile(_, _) => DoWhileSound(w, f, st, s, sp, fuel);
    case Return(v) =>
      if v.Some? {
        ExprSound(w, f, v.value, s, sp, fuel);
        var p := Eval(w, f, v.value, s, sp, fuel);
        if p.Ok? {
          ValueSound(f, p.value.0, p.value.1, TypeOf(w.prog, f, v.value));
        }
      }
    case WLabel(l) => SameVars(f, s, s.(passed := l));
  }

  lemma NoNames(f: Func, names: seq<nat>, s: St, r: Res)
    requires names == []
    ensures InitAll(f, names, s, r) == Ok(s)
  {
  }

  lemma SameVars(f: Func, s: St, t: St)
    requires Typed(f, s) && t.vars == s.vars
    ensures Typed(f, t)
  {
  }

  lemma {:induction false} WhileSound(w: World, f: Func, st: Stmt, s: St, sp: nat, fuel: nat)
    requires WorldOk(w) && Typed(f, s) && StmtOk(w.prog, f, st) && st.While?
    ensures SoundFlow(f, Exec(w, f, st, s, sp, fuel))
    decreases fuel, st, 0
  {
    hide Value, Eval, ExecAll, WorldOk, StmtsOk, TypeOf, Scalar, HasType, Typed;
    ExprSound(w, f, st.c, s, sp, fuel);
    var p := Eval(w, f, st.c, s, sp, fuel);
    if p.Ok? {
      ValueSound(f, p.value.0, p.value.1, TypeOf(w.prog, f, st.c));
      AllSound(w, f, st.body, p.value.0, sp, fuel);
      var q := ExecAll(w, f, st.body, p.value.0, sp, fuel);
      if q.Ok? && q.value.1.Fall? && fuel > 0 {
        StmtSound(w, f, st, q.value.0, sp, fuel - 1);
      }
    }
  }

  lemma {:induction false} DoWhileSound(w: World, f: Func, st: Stmt, s: St, sp: nat, fuel: nat)
    requires WorldOk(w) && Typed(f, s) && StmtOk(w.prog, f, st) && st.DoWhile?
    ensures SoundFlow(f, Exec(w, f, st, s, sp, fuel))
    decreases fuel, st, 0
  {
    hide Value, Eval, ExecAll, WorldOk, StmtsOk, TypeOf, Scalar, HasType, Typed;
    AllSound(w, f, st.body, s, sp, fuel);
    var p := ExecAll(w, f, st.body, s, sp, fuel);
    if p.Ok? {
      ExprSound(w, f, st.c, p.value.0, sp, fuel);
      var q := Eval(w, f, st.c, p.value.0, sp, fuel);
      if q.Ok? {
        ValueSound(f, q.value.0, q.value.1, TypeOf(w.prog, f, st.c));
        if fuel > 0 {
          StmtSound(w, f, st, q.value.0, sp, fuel - 1);
        }
      }
    }
  }

  lemma {:induction false} AllSound(w: World, f: Func, ss: Stmts, s: St, sp: nat, fuel: nat)
    requires WorldOk(w) && Typed(f, s) && StmtsOk(w.prog, f, ss)
    ensures SoundFlow(f, ExecAll(w, f, ss, s, sp, fuel))
    decreases fuel, ss, 1
  {
    hide Exec, WorldOk, StmtOk, Typed;
    if ss.Cons? {
      StmtSound(w, f, ss.head, s, sp, fuel);
      var p := Exec(w, f, ss.head, s, sp, fuel);
      if p.Ok? {
        AllSound(w, f, ss.tail, p.value.0, sp, fuel);
      }
    }
  }

  lemma {:induction false} ElseSound(w: World, f: Func, els: Else, s: St, sp: nat, fuel: nat)
    requires WorldOk(w) && Typed(f, s) && ElseOk(w.prog, f, els)
    ensures SoundFlow(f, ExecElse(w, f, els, s, sp, fuel))
    decreases fuel, els, 1
  {
    hide Value, Eval, ExecAll, WorldOk, StmtsOk, TypeOf, Scalar, HasType, Typed;
    match els
    case NoElse =>
    case ElseBlock(b) => AllSound(w, f, b, s, sp, fuel);
    case Elif(c, b, rest) =>
      ExprSound(w, f, c, s, sp, fuel);
      var p := Eval(w, f, c, s, sp, fuel);
      if p.Ok? {
        ValueSound(f, p.value.0, p.value.1, TypeOf(w.prog, f, c));
        AllSound(w, f, b, p.value.0, sp, fuel);
        ElseSound(w, f, rest, p.value.0, sp, fuel);
      }
  }
}
