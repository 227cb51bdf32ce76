/** Big-step semantics of scalar function bodies.

    An expression evaluates to an operand, not to a value: a name stands for its place, which the enclosing
    operator reads when it executes.  That is what the code generator's result operands mean.  In an eager
    world a binary operator reads its left operand before its right one runs; module `Eager` shows when the
    two orders agree.  The semantics is fuelled (one unit per loop iteration and per call) and tracks
    the height of the run-time stack, because a program that outgrows the stack is stopped by the machine. */
module Source {
  import opened Options
  import opened Words
  import opened Ast

  /** What the language leaves undefined: reading an uninitialised variable; overflow, division by zero and
      oversized shifts; falling off a function that returns a value.  Checked programs never meet the last cause. */
  datatype Cause = Uninitialised | Arithmetic | NoReturn | IllTyped

  /** The outcome of evaluation. */
  datatype Outcome<+T> = Ok(value: T) | Undef(why: Cause) | Timeout | Overflow {
    predicate IsFailure() {
      !Ok?
    }

    function PropagateFailure<U>(): Outcome<U>
      requires IsFailure()
    {
      match this
      case Undef(why) => Undef(why)
      case Timeout => Timeout
      case Overflow => Overflow
    }

    function Extract(): T
      requires Ok?
    {
      value
    }
  }

  /** The values of the initialised variables, the function-wide noint flag and the last wait label passed. */
  datatype St = St(vars: map<nat, int>, noint: Flag, passed: Label)

  datatype Res = RConst(v: int, ty: Ty) | RVar(x: nat) | RVal(v: int, ty: Ty) | RVoid

  datatype Flow = Fall | Returned(v: Option<int>)

  /** What a call leaves behind: the returned value and the two pieces of state a callee shares with its caller. */
  datatype Ret = Ret(v: Option<int>, noint: Flag, passed: Label)

  /** A program, the bytes of locals each of its functions takes, the size of a stack, and whether a binary
      operator reads its left operand before its right operand runs (`eager`, the order a reader of the
      language expects) or when it executes (what the generated code does). */
  datatype World = World(prog: Program, locals: seq<nat>, cap: nat, eager: bool)

  /** Reading an operand. */
  function Value(f: Func, s: St, r: Res): Outcome<(int, Ty)> {
    match r
    case RConst(v, ty) => if ty.Holds(v) then Ok((v, ty)) else Undef(IllTyped)
    case RVal(v, ty) => if ty.Holds(v) then Ok((v, ty)) else Undef(IllTyped)
    case RVar(x) =>
      if !Scalar(f, x) then Undef(IllTyped)
      else if x !in s.vars then Undef(Uninitialised)
      else if f.vars[x].ty.value.Holds(s.vars[x]) then Ok((s.vars[x], f.vars[x].ty.value))
      else Undef(IllTyped)
    case RVoid => Undef(IllTyped)
  }

  function FromOption<T>(o: Option<T>): Outcome<T> {
    if o.Some? then Ok(o.value) else Undef(Arithmetic)
  }

  function Operate(op: ArithOp, a: (int, Ty), b: (int, Ty)): (r: Outcome<int>)
    requires a.1.Holds(a.0) && b.1.Holds(b.0)
    ensures r.Ok? ==> a.1.Holds(r.value)
  {
    if SameWord(a.1, b.1) && (op.UnsignedOnly() ==> !a.1.Signed())
    then FromOption(SrcArith(op, a.1, a.0, b.0)) else Undef(IllTyped)
  }

  /** Storing into a variable. */
  function Store(f: Func, s: St, x: nat, v: (int, Ty)): Outcome<St> {
    if Scalar(f, x) && v.1 == f.vars[x].ty.value then Ok(s.(vars := s.vars[x := v.0])) else Undef(IllTyped)
  }

  function Truth(b: bool): Res {
    RVal(if b then 1 else 0, U8)
  }

  function Step1(up: bool): int {
    if up then 1 else -1
  }

  function DoAssign(f: Func, x: nat, s: St, b: Res): (r': Outcome<(St, Res)>)
    ensures r'.Ok? || r'.Undef?
  {
    var v :- Value(f, s, b);
    var s1 :- Store(f, s, x, v);
    Ok((s1, RVar(x)))
  }

  function DoAssignOp(f: Func, op: ArithOp, x: nat, s: St, a: Res, b: Res): (r': Outcome<(St, Res)>)
    ensures r'.Ok? || r'.Undef?
  {
    var v :- Value(f, s, a);
    var d :- Value(f, s, b);
    var r :- Operate(op, v, d);
    Ok((s.(vars := s.vars[x := r]), RVar(x)))
  }

  /** A left operand while the right one runs: its place, or its value already read. */
  function Operand(w: World, f: Func, s: St, a: Res): (r': Outcome<Res>)
    ensures r'.Ok? || r'.Undef?
    ensures !w.eager ==> r' == Ok(a)
  {
    if !w.eager then Ok(a)
    else
      var v :- Value(f, s, a);
      Ok(RVal(v.0, v.1))
  }

  function DoArith(f: Func, op: ArithOp, s: St, a: Res, b: Res): (r': Outcome<(St, Res)>)
    ensures r'.Ok? || r'.Undef?
  {
    var x :- Value(f, s, a);
    var y :- Value(f, s, b);
    var z :- Operate(op, x, y);
    Ok((s, RVal(z, x.1)))
  }

  function DoCmp(f: Func, op: CmpOp, s: St, a: Res, b: Res): (r': Outcome<(St, Res)>)
    ensures r'.Ok? || r'.Undef?
  {
    var x :- Value(f, s, a);
    var y :- Value(f, s, b);
    Ok((s, RVal(SrcCmp(op, x.0, y.0), U8)))
  }

  function DoTruth(f: Func, s: St, a: Res): (r': Outcome<(St, Res)>)
    ensures r'.Ok? || r'.Undef?
  {
    var x :- Value(f, s, a);
    Ok((s, Truth(x.0 != 0)))
  }

  function DoCast(f: Func, to: Ty, s: St, r: Res): (r': Outcome<(St, Res)>)
    ensures r'.Ok? || r'.Undef?
  {
    var v :- Value(f, s, r);
    Ok((s, RVal(SrcCast(v.1, to, v.0), to)))
  }

  function DoMinus(f: Func, s: St, r: Res): (r': Outcome<(St, Res)>)
    ensures r'.Ok? || r'.Undef?
  {
    var v :- Value(f, s, r);
    var n :- Minus(v);
    Ok((s, RVal(n, v.1.Negated())))
  }

  function DoNot(f: Func, s: St, r: Res): (r': Outcome<(St, Res)>)
    ensures r'.Ok? || r'.Undef?
  {
    var v :- Value(f, s, r);
    Ok((s, RVal(if v.0 == 0 then 1 else 0, v.1)))
  }

  function DoComplement(f: Func, s: St, r: Res): (r': Outcome<(St, Res)>)
    ensures r'.Ok? || r'.Undef?
  {
    var v :- Value(f, s, r);
    if v.1.Signed() then Undef(IllTyped) else Ok((s, RVal(Complement(v), v.1)))
  }

  /** ++ and --: the prefix forms denote the variable, the postfix forms its old value. */
  function DoBump(f: Func, up: bool, x: nat, post: bool, s: St): (r': Outcome<(St, Res)>)
    ensures r'.Ok? || r'.Undef?
  {
    var v :- Value(f, s, RVar(x));
    var n :- FromOption(Fit(v.1, v.0 + Step1(up)));
    Ok((s.(vars := s.vars[x := n]), if post then RVal(v.0, v.1) else RVar(x)))
  }

  function DoSelect(f: Func, s: St, b: Res): (r': Outcome<(St, Res)>)
    ensures r'.Ok? || r'.Undef?
  {
    var u :- Value(f, s, b);
    Ok((s, RVal(u.0, u.1)))
  }

  function Eval(w: World, f: Func, e: Expr, s: St, sp: nat, fuel: nat): Outcome<(St, Res)>
    decreases fuel, e, 1
  {
    match e
    case Num(v) => Ok((s, RConst(v, NumTy(v))))
    case Bool(b) => Ok((s, RConst(if b then 1 else 0, U8)))
    case Name(x) => Ok((s, RVar(x)))
    case Assign(x, rhs) =>
      var (s1, b) :- Eval(w, f, rhs, s, sp, fuel);
      DoAssign(f, x, s1, b)
    case AssignOp(op, x, rhs) =>
      var a :- Operand(w, f, s, RVar(x));
      var (s1, b) :- Eval(w, f, rhs, s, sp, fuel);
      DoAssignOp(f, op, x, s1, a, b)
    case Arith(op, _, _) =>
      var (s1, a, b) :- EvalPair(w, f, e, s, sp, fuel);
      DoArith(f, op, s1, a, b)
    case Cmp(op, _, _) =>
      var (s1, a, b) :- EvalPair(w, f, e, s, sp, fuel);
      DoCmp(f, op, s1, a, b)
    case Conj(l, r) =>
      var (s1, a) :- Eval(w, f, l, s, sp, fuel);
      var x :- Value(f, s1, a);
      if x.0 == 0 then Ok((s1, Truth(false)))
      else
        var (s2, b) :- Eval(w, f, r, s1, sp, fuel);
        DoTruth(f, s2, b)
    case Disj(l, r) =>
      var (s1, a) :- Eval(w, f, l, s, sp, fuel);
      var x :- Value(f, s1, a);
      if x.0 != 0 then Ok((s1, Truth(true)))
      else
        var (s2, b) :- Eval(w, f, r, s1, sp, fuel);
        DoTruth(f, s2, b)
    case Comma(l, r) =>
      var (s1, _) :- Eval(w, f, l, s, sp, fuel);
      Eval(w, f, r, s1, sp, fuel)
    case Cast(a, to) =>
      var (s1, r) :- Eval(w, f, a, s, sp, fuel);
      DoCast(f, to, s1, r)
    case UPlus(a) => Eval(w, f, a, s, sp, fuel)
    case UMinus(a) =>
      var (s1, r) :- Eval(w, f, a, s, sp, fuel);
      DoMinus(f, s1, r)
    case LNot(a) =>
      var (s1, r) :- Eval(w, f, a, s, sp, fuel);
      DoNot(f, s1, r)
    case BNot(a) =>
      var (s1, r) :- Eval(w, f, a, s, sp, fuel);
      DoComplement(f, s1, r)
    case PreInc(up, x) => DoBump(f, up, x, false, s)
    case PostInc(up, x) => DoBump(f, up, x, true, s)
    case Tern(c, t, e) =>
      var (s1, r) :- Eval(w, f, c, s, sp, fuel);
      var v :- Value(f, s1, r);
      if v.0 != 0 then
        var (s2, b) :- Eval(w, f, t, s1, sp, fuel);
        DoSelect(f, s2, b)
      else
        var (s2, b) :- Eval(w, f, e, s1, sp, fuel);
        DoSelect(f, s2, b)
    case Call(g, args) => EvalCall(w, f, g, args, s, sp, fuel)
  }

  /** Both operands, left to right. */
  function EvalPair(w: World, f: Func, e: Expr, s: St, sp: nat, fuel: nat): Outcome<(St, Res, Res)>
    requires e.Arith? || e.Cmp?
    decreases fuel, e, 0
  {
    var (s1, a) :- Eval(w, f, e.l, s, sp, fuel);
    var a1 :- Operand(w, f, s1, a);
    var (s2, b) :- Eval(w, f, e.r, s1, sp, fuel);
    Ok((s2, a1, b))
  }

  /** A call: save the return state, push the arguments, run the body one unit of fuel down. */
  function EvalCall(w: World, f: Func, g: nat, args: Args, s: St, sp: nat, fuel: nat): Outcome<(St, Res)>
    decreases fuel, args, 1
  {
    if g >= |w.prog| || g >= |w.locals| then Undef(IllTyped)
    else if sp + 16 > w.cap then Overflow
    else
      var (s1, vals, sp') :- EvalArgs(w, f, args, s, sp + 16, fuel);
      if fuel == 0 then Timeout
      else
        var ret :- EvalBody(w, g, vals, s1.noint, s1.passed, sp', fuel - 1);
        Ok((St(s1.vars, ret.noint, ret.passed), RetRes(w.prog[g], ret.v)))
  }

  function RetRes(f: Func, v: Option<int>): Res {
    if v.Some? && f.ret.Some? then RVal(v.value, f.ret.value) else RVoid
  }

  /** Unary minus: signed overflow is undefined, an unsigned operand is reinterpreted as its signed twin. */
  function Minus(v: (int, Ty)): (r: Outcome<int>)
    requires v.1.Holds(v.0)
    ensures r.Ok? ==> v.1.Negated().Holds(r.value)
  {
    if v.1.Signed() then FromOption(Fit(v.1, -v.0))
    else
      ToIntInRange(true, v.1.Size(), FromInt(v.1.Size(), -v.0));
      Ok(ToInt(true, v.1.Size(), FromInt(v.1.Size(), -v.0)))
  }

  function Complement(v: (int, Ty)): (r: int)
    requires v.1.Holds(v.0) && !v.1.Signed()
    ensures v.1.Holds(r)
  {
    v.1.Max() - v.0
  }

  /** Arguments are evaluated left to right; each is read and pushed, as one aligned word, before the next. */
  function EvalArgs(w: World, f: Func, args: Args, s: St, sp: nat, fuel: nat): Outcome<(St, seq<int>, nat)>
    decreases fuel, args, 0
  {
    match args
    case NoArgs => Ok((s, [], sp))
    case Arg(a, rest) =>
      var (s1, r) :- Eval(w, f, a, s, sp, fuel);
      var v :- Value(f, s1, r);
      if sp + 8 > w.cap then Overflow
      else
        var (s2, vs, sp') :- EvalArgs(w, f, rest, s1, sp + 8, fuel);
        Ok((s2, [v.0] + vs, sp'))
  }

  /** Running a function's body with its arguments already on the stack, at height sp. */
  function EvalBody(w: World, g: nat, vals: seq<int>, noint: Flag, passed: Label, sp: nat, fuel: nat): Outcome<Ret>
    requires g < |w.prog| && g < |w.locals|
    decreases fuel, w.prog[g].body, 2
  {
    if sp + w.locals[g] > w.cap then Overflow
    else
      var f := w.prog[g];
      var (s, flow) :- ExecAll(w, f, f.body, St(Bind(vals), noint, passed), sp + w.locals[g], fuel);
      match flow
      case Fall => if f.ret.None? then Ok(Ret(None, s.noint, s.passed)) else Undef(NoReturn)
      case Returned(v) => Ok(Ret(v, s.noint, s.passed))
  }

  function Bind(vals: seq<int>): map<nat, int> {
    map i: nat | i < |vals| :: vals[i]
  }

  function Exec(w: World, f: Func, st: Stmt, s: St, sp: nat, fuel: nat): Outcome<(St, Flow)>
    decreases fuel, st, 0
  {
    match st
    case Decl(names, init) =>
      if init.None? then Ok((s, Fall))
      else
        var (s1, r) :- Eval(w, f, init.value, s, sp, fuel);
        var s2 :- InitAll(f, names, s1, r);
        Ok((s2, Fall))
    case ExprS(e) =>
      var (s1, _) :- Eval(w, f, e, s, sp, fuel);
      Ok((s1, Fall))
    case Block(b) => ExecAll(w, f, b, s, sp, fuel)
    case NoInt(b) =>
      var (s1, flow) :- ExecAll(w, f, b, s.(noint := s.noint.Raised()), sp, fuel);
      Ok((if flow.Fall? then s1.(noint := s1.noint.Lowered()) else s1, flow))
    case If(els) => ExecElse(w, f, els, s, sp, fuel)
    case While(c, b) =>
      var (s1, r) :- Eval(w, f, c, s, sp, fuel);
      var v :- Value(f, s1, r);
      if v.0 == 0 then Ok((s1, Fall))
      else
        var (s2, flow) :- ExecAll(w, f, b, s1, sp, fuel);
        if flow.Returned? then Ok((s2, flow))
        else if fuel == 0 then Timeout
        else Exec(w, f, st, s2, sp, fuel - 1)
    case DoWhile(b, c) =>
      var (s1, flow) :- ExecAll(w, f, b, s, sp, fuel);
      if flow.Returned? then Ok((s1, flow))
      else
        var (s2, r) :- Eval(w, f, c, s1, sp, fuel);
        var v :- Value(f, s2, r);
        if v.0 == 0 then Ok((s2, Fall))
        else if fuel == 0 then Timeout
        else Exec(w, f, st, s2, sp, fuel - 1)
    case Return(v) =>
      if v.None? then Ok((s, Returned(None)))
      else
        var (s1, r) :- Eval(w, f, v.value, s, sp, fuel);
        var x :- Value(f, s1, r);
        Ok((s1, Returned(Some(x.0))))
    case WLabel(l) => Ok((s.(passed := l), Fall))
  }

  /** One initialiser, evaluated once and read again for every declared name. */
  function InitAll(f: Func, names: seq<nat>, s: St, r: Res): Outcome<St> {
    if names == [] then Ok(s)
    else
      var v :- Value(f, s, r);
      var s1 :- Store(f, s, names[0], v);
      InitAll(f, names[1..], s1, r)
  }

  function ExecAll(w: World, f: Func, ss: Stmts, s: St, sp: nat, fuel: nat): Outcome<(St, Flow)>
    decreases fuel, ss, 1
  {
    match ss
    case Nil => Ok((s, Fall))
    case Cons(st, rest) =>
      var (s1, flow) :- Exec(w, f, st, s, sp, fuel);
      if flow.Returned? then Ok((s1, flow)) else ExecAll(w, f, rest, s1, sp, fuel)
  }

  function ExecElse(w: World, f: Func, els: Else, s: St, sp: nat, fuel: nat): Outcome<(St, Flow)>
    decreases fuel, els, 1
  {
    match els
    case NoElse => Ok((s, Fall))
    case ElseBlock(b) => ExecAll(w, f, b, s, sp, fuel)
    case Elif(c, b, rest) =>
      var (s1, r) :- Eval(w, f, c, s, sp, fuel);
      var v :- Value(f, s1, r);
      if v.0 != 0 then ExecAll(w, f, b, s1, sp, fuel) else ExecElse(w, f, rest, s1, sp, fuel)
  }
}
