/** What the code generator emits, stated as a relation between a syntax tree and a stretch of code.

    `Placed(code, c, p, t, e)` says that the instructions of expression e stand in `code` from index p on,
    generated with the temporary allocator at offset t; every jump holds its final, back-patched target.
    Lengths, allocator offsets and result operands are functions of the tree, so the relation pins down
    the code completely (see `PlacedUnique`). */
module Codegen {
  import opened Options
  import opened Words
  import opened Ast
  import opened Layout
  import opened Insn

  /** The function being generated: its frame and the operand each function reference stands for. */
  datatype Ctx = Ctx(p: Program, f: Func, slots: map<nat, Slot>, frame: nat, fns: seq<Opd>)

  function AllocEnd(t: nat, size: nat): (r: nat)
    requires IsWord(size)
    ensures r >= t + size
  {
    AlignUp(t, size) + size
  }

  /** OPD_TEMP: an aligned slot at or above the allocator's offset. */
  function TempAt(t: nat, ty: Ty): Opd {
    Temp(ty.Signed(), AlignUp(t, ty.Size()), ty.Size())
  }

  function VarOpd(c: Ctx, x: nat): Opd {
    if Scalar(c.f, x) && x in c.slots
    then Auto(c.f.vars[x].ty.value.Signed(), c.slots[x].off, c.slots[x].size)
    else Imm(false, 0, 0)
  }

  function VarTy(c: Ctx, x: nat): Ty {
    if Scalar(c.f, x) then c.f.vars[x].ty.value else U8
  }

  /** The type of an expression that has a value. */
  function ValTy(c: Ctx, e: Expr): Ty {
    var t := TypeOf(c.p, c.f, e);
    if t.TInt? then t.ty else U8
  }

  predicate HasValue(c: Ctx, e: Expr) {
    TypeOf(c.p, c.f, e).TInt?
  }

  predicate AllocatesUnused(op: ArithOp) {
    op.Add? || op.Sub?
  }

  /** The allocator's offset after e. */
  function TempEnd(c: Ctx, e: Expr, t: nat): (r: nat)
    ensures r >= t
    decreases e
  {
    match e
    case Num(_) => t
    case Bool(_) => t
    case Name(_) => t
    case Assign(_, r) => TempEnd(c, r, t)
    case AssignOp(op, x, r) =>
      if AllocatesUnused(op) then AllocEnd(TempEnd(c, r, t), VarTy(c, x).Size()) else TempEnd(c, r, t)
    case Arith(_, l, r) => AllocEnd(TempEnd(c, r, TempEnd(c, l, t)), ValTy(c, e).Size())
    case Cmp(_, l, r) => AllocEnd(TempEnd(c, r, TempEnd(c, l, t)), 1)
    case Conj(l, r) => TempEnd(c, r, AllocEnd(TempEnd(c, l, t), 1))
    case Disj(l, r) => TempEnd(c, r, AllocEnd(TempEnd(c, l, t), 1))
    case Comma(_, r) => TempEnd(c, r, t)
    case Cast(a, to) => AllocEnd(TempEnd(c, a, t), to.Size())
    case UPlus(a) => TempEnd(c, a, t)
    case UMinus(a) => AllocEnd(TempEnd(c, a, t), ValTy(c, e).Size())
    case LNot(a) => AllocEnd(TempEnd(c, a, t), ValTy(c, e).Size())
    case BNot(a) => AllocEnd(TempEnd(c, a, t), ValTy(c, e).Size())
    case PreInc(_, _) => t
    case PostInc(_, x) => AllocEnd(t, VarTy(c, x).Size())
    case Tern(k, _, b) => TempEnd(c, b, AllocEnd(TempEnd(c, k, t), ValTy(c, e).Size()))
    case Call(_, args) =>
      var t1 := TempEndArgs(c, args, AllocEnd(t, 8));
      if HasValue(c, e) then AllocEnd(t1, ValTy(c, e).Size()) else t1
  }

  function TempEndArgs(c: Ctx, args: Args, t: nat): (r: nat)
    ensures r >= t
    decreases args
  {
    match args
    case NoArgs => t
    case Arg(a, rest) => TempEndArgs(c, rest, TempEnd(c, a, t))
  }

  function Max(a: nat, b: nat): nat {
    if a >= b then a else b
  }

  /** The highest offset any allocation for e reaches. */
  function Peak(c: Ctx, e: Expr, t: nat): (r: nat)
    ensures r >= TempEnd(c, e, t)
    decreases e
  {
    match e
    case Num(_) => t
    case Bool(_) => t
    case Name(_) => t
    case Assign(_, r) => Peak(c, r, t)
    case AssignOp(op, x, r) => Max(Peak(c, r, t), TempEnd(c, e, t))
    case Arith(_, l, r) => Max(Peak(c, l, t), Max(Peak(c, r, TempEnd(c, l, t)), TempEnd(c, e, t)))
    case Cmp(_, l, r) => Max(Peak(c, l, t), Max(Peak(c, r, TempEnd(c, l, t)), TempEnd(c, e, t)))
    case Conj(l, r) => Max(Peak(c, l, t), Peak(c, r, AllocEnd(TempEnd(c, l, t), 1)))
    case Disj(l, r) => Max(Peak(c, l, t), Peak(c, r, AllocEnd(TempEnd(c, l, t), 1)))
    case Comma(l, r) => Max(Peak(c, l, t), Peak(c, r, t))
    case Cast(a, _) => Max(Peak(c, a, t), TempEnd(c, e, t))
    case UPlus(a) => Peak(c, a, t)
    case UMinus(a) => Max(Peak(c, a, t), TempEnd(c, e, t))
    case LNot(a) => Max(Peak(c, a, t), TempEnd(c, e, t))
    case BNot(a) => Max(Peak(c, a, t), TempEnd(c, e, t))
    case PreInc(_, _) => t
    case PostInc(_, x) => TempEnd(c, e, t)
    case Tern(k, a, b) =>
      var t1 := AllocEnd(TempEnd(c, k, t), ValTy(c, e).Size());
      Max(Peak(c, k, t), Max(Peak(c, a, t1), Peak(c, b, t1)))
    case Call(_, args) => Max(PeakArgs(c, args, AllocEnd(t, 8)), TempEnd(c, e, t))
  }

  function PeakArgs(c: Ctx, args: Args, t: nat): (r: nat)
    ensures r >= TempEndArgs(c, args, t)
    decreases args
  {
    match args
    case NoArgs => t
    case Arg(a, rest) => Max(Peak(c, a, t), PeakArgs(c, rest, TempEnd(c, a, t)))
  }

  /** The operand gen_expr hands back; meaningless for a call without a value. */
  function ResOpd(c: Ctx, e: Expr, t: nat): Opd
    decreases e
  {
    match e
    case Num(v) => Imm(false, v, NumTy(v).Size())
    case Bool(b) => Imm(false, if b then 1 else 0, 1)
    case Name(x) => VarOpd(c, x)
    case Assign(x, _) => VarOpd(c, x)
    case AssignOp(_, x, _) => VarOpd(c, x)
    case Arith(_, l, r) => TempAt(TempEnd(c, r, TempEnd(c, l, t)), ValTy(c, e))
    case Cmp(_, l, r) => TempAt(TempEnd(c, r, TempEnd(c, l, t)), U8)
    case Conj(l, _) => TempAt(TempEnd(c, l, t), U8)
    case Disj(l, _) => TempAt(TempEnd(c, l, t), U8)
    case Comma(_, r) => ResOpd(c, r, t)
    case Cast(a, to) => TempAt(TempEnd(c, a, t), to)
    case UPlus(a) => ResOpd(c, a, t)
    case UMinus(a) => TempAt(TempEnd(c, a, t), ValTy(c, e))
    case LNot(a) => TempAt(TempEnd(c, a, t), ValTy(c, e))
    case BNot(a) => TempAt(TempEnd(c, a, t), ValTy(c, e))
    case PreInc(_, x) => VarOpd(c, x)
    case PostInc(_, x) => TempAt(t, VarTy(c, x))
    case Tern(k, _, _) => TempAt(TempEnd(c, k, t), ValTy(c, e))
    case Call(_, args) =>
      if HasValue(c, e) then TempAt(TempEndArgs(c, args, AllocEnd(t, 8)), ValTy(c, e)) else Imm(false, 0, 0)
  }

  function Len(e: Expr): nat
    decreases e
  {
    match e
    case Num(_) => 0
    case Bool(_) => 0
    case Name(_) => 0
    case Assign(_, r) => Len(r) + 1
    case AssignOp(_, _, r) => Len(r) + 1
    case Arith(_, l, r) => Len(l) + Len(r) + 1
    case Cmp(_, l, r) => Len(l) + Len(r) + 1
    case Conj(l, r) => Len(l) + 2 + Len(r) + 2
    case Disj(l, r) => Len(l) + 2 + Len(r) + 2
    case Comma(l, r) => Len(l) + Len(r)
    case Cast(a, _) => Len(a) + 1
    case UPlus(a) => Len(a)
    case UMinus(a) => Len(a) + 1
    case LNot(a) => Len(a) + 1
    case BNot(a) => Len(a) + 1
    case PreInc(_, _) => 1
    case PostInc(_, _) => 1
    case Tern(k, a, b) => Len(k) + 1 + Len(a) + 2 + Len(b) + 1
    case Call(_, args) => 1 + LenArgs(args) + 1
  }

  function LenArgs(args: Args): nat
    decreases args
  {
    match args
    case NoArgs => 0
    case Arg(a, rest) => Len(a) + 1 + LenArgs(rest)
  }

  predicate At(code: seq<Insn>, i: nat, insn: Insn) {
    i < |code| && code[i] == insn
  }

  predicate Placed(code: seq<Insn>, c: Ctx, p: nat, t: nat, e: Expr)
    decreases e, 1
  {
    match e
    case Num(_) => true
    case Bool(_) => true
    case Name(_) => true
    case Assign(x, r) =>
      && Placed(code, c, p, t, r)
      && At(code, p + Len(r), Mov(VarOpd(c, x), ResOpd(c, r, t)))
    case AssignOp(op, x, r) =>
      && Placed(code, c, p, t, r)
      && At(code, p + Len(r), Bin(op, VarOpd(c, x), VarOpd(c, x), ResOpd(c, r, t)))
    case Arith(op, l, r) =>
      var t1 := TempEnd(c, l, t);
      && Placed(code, c, p, t, l)
      && Placed(code, c, p + Len(l), t1, r)
      && At(code, p + Len(l) + Len(r), Bin(op, ResOpd(c, e, t), ResOpd(c, l, t), ResOpd(c, r, t1)))
    case Cmp(op, l, r) =>
      var t1 := TempEnd(c, l, t);
      && Placed(code, c, p, t, l)
      && Placed(code, c, p + Len(l), t1, r)
      && At(code, p + Len(l) + Len(r), CmpI(op, ResOpd(c, e, t), ResOpd(c, l, t), ResOpd(c, r, t1)))
    case Conj(_, _) => PlacedLogic(code, c, p, t, e)
    case Disj(_, _) => PlacedLogic(code, c, p, t, e)
    case Comma(l, r) => Placed(code, c, p, t, l) && Placed(code, c, p + Len(l), t, r)
    case Cast(a, _) =>
      && Placed(code, c, p, t, a)
      && At(code, p + Len(a), CastI(ResOpd(c, e, t), ResOpd(c, a, t)))
    case UPlus(a) => Placed(code, c, p, t, a)
    case UMinus(a) =>
      && Placed(code, c, p, t, a)
      && At(code, p + Len(a), Un(NegOp, ResOpd(c, e, t), ResOpd(c, a, t)))
    case LNot(a) =>
      && Placed(code, c, p, t, a)
      && At(code, p + Len(a), Un(NotOp, ResOpd(c, e, t), ResOpd(c, a, t)))
    case BNot(a) =>
      && Placed(code, c, p, t, a)
      && At(code, p + Len(a), Un(BnegOp, ResOpd(c, e, t), ResOpd(c, a, t)))
    case PreInc(up, x) => At(code, p, IncDec(up, VarOpd(c, x)))
    case PostInc(up, x) => At(code, p, IncDecP(up, ResOpd(c, e, t), VarOpd(c, x)))
    case Tern(k, a, b) =>
      var res := ResOpd(c, e, t);
      var t1 := AllocEnd(TempEnd(c, k, t), ValTy(c, e).Size());
      var pa := p + Len(k) + 1;
      var pb := pa + Len(a) + 2;
      && Placed(code, c, p, t, k)
      && At(code, p + Len(k), Jz(ResOpd(c, k, t), pb))
      && Placed(code, c, pa, t1, a)
      && At(code, pa + Len(a), Mov(res, ResOpd(c, a, t1)))
      && At(code, pa + Len(a) + 1, Jmp(pb + Len(b) + 1))
      && Placed(code, c, pb, t1, b)
      && At(code, pb + Len(b), Mov(res, ResOpd(c, b, t1)))
    case Call(g, args) =>
      var ssp := TempAt(t, U64);
      var t1 := AllocEnd(t, 8);
      var q := p + 1 + LenArgs(args);
      && g < |c.fns|
      && At(code, p, PushR(q, ssp))
      && PlacedArgs(code, c, p + 1, t1, args)
      && At(code, q, if HasValue(c, e) then CallV(ResOpd(c, e, t), c.fns[g], ssp) else CallI(c.fns[g], ssp))
  }

  /** && and ||: normalise the left operand to 0 or 1, skip the right one when it cannot matter. */
  predicate PlacedLogic(code: seq<Insn>, c: Ctx, p: nat, t: nat, e: Expr)
    requires e.Conj? || e.Disj?
    decreases e, 0
  {
    var l, r, conj := e.l, e.r, e.Conj?;
    var dst := TempAt(TempEnd(c, l, t), U8);
    var t1 := AllocEnd(TempEnd(c, l, t), 1);
    var pr := p + Len(l) + 2;
    var end := pr + Len(r) + 2;
    var lhs := ResOpd(c, l, t);
    && Placed(code, c, p, t, l)
    && At(code, p + Len(l), Un(OzOp, dst, lhs))
    && At(code, p + Len(l) + 1, if conj then Jz(lhs, end) else Jnz(lhs, end))
    && Placed(code, c, pr, t1, r)
    && At(code, pr + Len(r), Un(OzOp, dst, ResOpd(c, r, t1)))
    && At(code, pr + Len(r) + 1,
          if conj then Bin(BAnd, dst, Imm(false, 1, 1), dst) else Bin(BOr, dst, Imm(false, 0, 1), dst))
  }

  predicate PlacedArgs(code: seq<Insn>, c: Ctx, p: nat, t: nat, args: Args)
    decreases args
  {
    match args
    case NoArgs => true
    case Arg(a, rest) =>
      && Placed(code, c, p, t, a)
      && At(code, p + Len(a), Push(ResOpd(c, a, t)))
      && PlacedArgs(code, c, p + Len(a) + 1, TempEnd(c, a, t), rest)
  }

  function LenS(s: Stmt): nat
    decreases s
  {
    match s
    case Decl(names, init) => if init.Some? then Len(init.value) + |names| else 0
    case ExprS(e) => Len(e) + 1
    case Block(b) => LenAll(b)
    case NoInt(b) => LenAll(b) + 2
    case If(els) => LenElse(els)
    case While(k, b) => Len(k) + 1 + LenAll(b) + 1
    case DoWhile(b, k) => LenAll(b) + Len(k) + 1
    case Return(v) => if v.Some? then Len(v.value) + 1 else 1
    case WLabel(_) => 1
  }

  function LenAll(ss: Stmts): nat
    decreases ss
  {
    match ss
    case Nil => 0
    case Cons(s, rest) => LenS(s) + LenAll(rest)
  }

  function LenElse(els: Else): nat
    decreases els
  {
    match els
    case NoElse => 0
    case ElseBlock(b) => LenAll(b)
    case Elif(k, b, rest) => Len(k) + 1 + LenAll(b) + 1 + LenElse(rest)
  }

  function PeakS(c: Ctx, s: Stmt): nat
    decreases s
  {
    match s
    case Decl(_, init) => if init.Some? then Peak(c, init.value, 0) else 0
    case ExprS(e) => Peak(c, e, 0)
    case Block(b) => PeakAll(c, b)
    case NoInt(b) => PeakAll(c, b)
    case If(els) => PeakElse(c, els)
    case While(k, b) => Max(Peak(c, k, 0), PeakAll(c, b))
    case DoWhile(b, k) => Max(PeakAll(c, b), Peak(c, k, 0))
    case Return(v) => if v.Some? then Peak(c, v.value, 0) else 0
    case WLabel(_) => 0
  }

  function PeakAll(c: Ctx, ss: Stmts): nat
    decreases ss
  {
    match ss
    case Nil => 0
    case Cons(s, rest) => Max(PeakS(c, s), PeakAll(c, rest))
  }

  function PeakElse(c: Ctx, els: Else): nat
    decreases els
  {
    match els
    case NoElse => 0
    case ElseBlock(b) => PeakAll(c, b)
    case Elif(k, b, rest) => Max(Peak(c, k, 0), Max(PeakAll(c, b), PeakElse(c, rest)))
  }

  /** One MOV per declared name, from the initialiser's operand. */
  predicate PlacedInit(code: seq<Insn>, c: Ctx, p: nat, names: seq<nat>, src: Opd)
    decreases |names|
  {
    names != [] ==>
      && At(code, p, Mov(VarOpd(c, names[0]), src))
      && PlacedInit(code, c, p + 1, names[1..], src)
  }

  /** Statements: each starts with an empty temporary area. */
  predicate PlacedS(code: seq<Insn>, c: Ctx, p: nat, s: Stmt)
    decreases s
  {
    match s
    case Decl(names, init) =>
      init.Some? ==>
        && Placed(code, c, p, 0, init.value)
        && PlacedInit(code, c, p + Len(init.value), names, ResOpd(c, init.value, 0))
    case ExprS(e) => Placed(code, c, p, 0, e) && At(code, p + Len(e), Nop)
    case Block(b) => PlacedAll(code, c, p, b)
    case NoInt(b) =>
      && At(code, p, NoIntI)
      && PlacedAll(code, c, p + 1, b)
      && At(code, p + 1 + LenAll(b), IntI)
    case If(els) => PlacedElse(code, c, p, p + LenElse(els), els)
    case While(k, b) =>
      var pb := p + Len(k) + 1;
      && Placed(code, c, p, 0, k)
      && At(code, p + Len(k), Jz(ResOpd(c, k, 0), pb + LenAll(b) + 1))
      && PlacedAll(code, c, pb, b)
      && At(code, pb + LenAll(b), Jmp(p))
    case DoWhile(b, k) =>
      && PlacedAll(code, c, p, b)
      && Placed(code, c, p + LenAll(b), 0, k)
      && At(code, p + LenAll(b) + Len(k), Jnz(ResOpd(c, k, 0), p))
    case Return(v) =>
      if v.Some? then
        && Placed(code, c, p, 0, v.value)
        && At(code, p + Len(v.value), RetV(ResOpd(c, v.value, 0), c.frame + 16))
      else At(code, p, RetI(c.frame + 16))
    case WLabel(l) => At(code, p, WLab(l))
  }

  predicate PlacedAll(code: seq<Insn>, c: Ctx, p: nat, ss: Stmts)
    decreases ss
  {
    match ss
    case Nil => true
    case Cons(s, rest) => PlacedS(code, c, p, s) && PlacedAll(code, c, p + LenS(s), rest)
  }

  /** Branches: a failed condition jumps to the next branch, a taken block to `end`. */
  predicate PlacedElse(code: seq<Insn>, c: Ctx, p: nat, end: nat, els: Else)
    decreases els
  {
    match els
    case NoElse => true
    case ElseBlock(b) => PlacedAll(code, c, p, b)
    case Elif(k, b, rest) =>
      var pb := p + Len(k) + 1;
      var pe := pb + LenAll(b) + 1;
      && Placed(code, c, p, 0, k)
      && At(code, p + Len(k), Jz(ResOpd(c, k, 0), pe))
      && PlacedAll(code, c, pb, b)
      && At(code, pb + LenAll(b), Jmp(end))
      && PlacedElse(code, c, pe, end, rest)
  }

  function LenF(f: Func): nat {
    LenAll(f.body) + 2
  }

  /** INCSP with the locals' size and the back-patched temporary area, the body, and a final RET. */
  predicate PlacedF(code: seq<Insn>, c: Ctx, p: nat)
    requires DeclsOk(c.f)
  {
    && ArgsSize(c.f) <= c.frame
    && At(code, p, IncSp(c.frame - ArgsSize(c.f), PeakAll(c, c.f.body)))
    && PlacedAll(code, c, p + 1, c.f.body)
    && At(code, p + 1 + LenAll(c.f.body), RetI(c.frame + 16))
  }
}
