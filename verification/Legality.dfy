/** Legality from typing alone: the operands the generator announces have the sizes and signs the type checker
    derived, so every instruction of a checked program passes its handler's checks in every state whatever, defined
    or not, reached or not. */
module Legality {
  import opened Options
  import opened Bytes
  import opened Words
  import opened Ast
  import opened Layout
  import opened Insn
  import opened Machine
  import opened Codegen
  import opened Shapes
  import opened Window
  import opened Emission
  import opened SimBase
  import Soundness

  /** What belongs to one function: its block of temporaries, its frame, and its stretch of code. */
  datatype Bounds = Bounds(tsize: nat, frame: nat, lo: nat, hi: nat)

  /** A constant, a temporary below the patched tsize, or bytes of the frame. */
  predicate Fits(b: Bounds, o: Opd) {
    && o.size > 0
    && (o.Temp? ==> o.off + o.size <= b.tsize)
    && (o.Auto? ==> o.off + o.size <= b.frame)
  }

  predicate Place(b: Bounds, o: Opd) {
    Fits(b, o) && !o.Imm?
  }

  predicate Inside(b: Bounds, loc: nat) {
    b.lo <= loc < b.hi
  }

  predicate Callable(fn: Opd) {
    fn.Imm? && !fn.signd && fn.size == 8
  }

  predicate SameOpds(a: Opd, o: Opd) {
    a.signd == o.signd && a.size == o.size && IsWord(a.size)
  }

  /** The size and sign checks of the handlers, and that operands and jumps stay in the function. */
  predicate Legal(b: Bounds, i: Insn) {
    match i
    case Nop => true
    case Mov(d, s) => Place(b, d) && Fits(b, s) && d.size == s.size
    case CastI(d, s) => Place(b, d) && Fits(b, s)
    case Bin(_, d, x, y) => Place(b, d) && Fits(b, x) && Fits(b, y) && SameOpds(d, x) && SameOpds(x, y)
    case CmpI(_, d, x, y) => Place(b, d) && Fits(b, x) && Fits(b, y) && SameOpds(x, y) && !d.signd && d.size == 1
    case Un(op, d, s) => Place(b, d) && Fits(b, s) && UnLegal(op, d, s)
    case IncDec(_, d) => Place(b, d) && IsWord(d.size)
    case IncDecP(_, d, s) => Place(b, d) && Place(b, s) && SameOpds(d, s)
    case Jz(k, loc) => Fits(b, k) && Inside(b, loc)
    case Jnz(k, loc) => Fits(b, k) && Inside(b, loc)
    case Jmp(loc) => Inside(b, loc)
    case PushR(r, ssp) => Place(b, ssp) && WordTemp(ssp) && Inside(b, r)
    case Push(s) => Fits(b, s) && IsWord(s.size)
    case CallI(fn, base) => Callable(fn) && Fits(b, base) && WordTemp(base)
    case CallV(d, fn, base) => Place(b, d) && Callable(fn) && Fits(b, base) && WordTemp(base)
    case IncSp(a, t) => a % 8 == 0 && t == b.tsize
    case RetI(n) => n == b.frame + 16
    case RetV(s, n) => Fits(b, s) && n == b.frame + 16
    case WLab(_) => true
    case NoIntI => true
    case IntI => true
    case _ => false
  }

  // ---------- what legality means to the machine ----------

  /** The function's temporaries and its frame are there; INCSP makes them. */
  predicate Room(b: Bounds, l: Local, i: Insn) {
    i.IncSp? || (l.temps != [] && b.tsize <= |l.temps[0]| && l.bp + b.frame <= |l.stack|)
  }

  predicate ChecksTheStack(i: Insn) {
    i.PushR? || i.Push? || i.IncSp? || i.RetI? || i.RetV?
  }

  lemma FitsReads(b: Bounds, l: Local, o: Opd)
    requires Fits(b, o) && l.temps != [] && b.tsize <= |l.temps[0]| && l.bp + b.frame <= |l.stack|
    ensures InBounds(l, o) && (!o.Imm? ==> Writable(l, o))
  {
  }

  /** The outcome of a legal instruction. */
  ghost predicate StepsWell(code: seq<Insn>, l: Local, fill: Fill)
    requires l.ip < |code|
  {
    var i, n := code[l.ip], Step(code, l, fill);
    && n != External
    && (n == Illegal ==> ChecksTheStack(i))
    && (n == Fault ==> i.Bin? || i.RetI? || i.RetV?)
    && (n == Fault && i.Bin? && InBounds(l, i.src1) && InBounds(l, i.src2) ==>
          Alu(i.op, i.dst.signd, i.dst.size, Get(l, i.src1), Get(l, i.src2)).None?)
    && (i.Bin? ==> InBounds(l, i.src1) && InBounds(l, i.src2))
  }

  /** In any state with room for the function's temporaries and frame, a legal instruction is rejected only by a
      check on the height of the stack, goes wrong only where C's arithmetic or a return address does, and is never
      one of the instructions on quaints. */
  lemma LegalSteps(b: Bounds, code: seq<Insn>, l: Local, fill: Fill)
    requires l.ip < |code| && Legal(b, code[l.ip]) && Room(b, l, code[l.ip])
    ensures StepsWell(code, l, fill)
  {
    hide *;
    var i := code[l.ip];
    if i.Mov? || i.CastI? || i.Un? || i.IncDec? || i.IncDecP? {
      MoveSteps(b, code, l, fill);
    } else if i.Bin? || i.CmpI? {
      PairSteps(b, code, l, fill);
    } else if i.PushR? || i.Push? || i.CallI? || i.CallV? {
      CallSteps(b, code, l, fill);
    } else {
      LegalForms(b, i);
      FlowSteps(b, code, l, fill);
    }
  }

  predicate Flows(i: Insn) {
    i.Nop? || i.Jz? || i.Jnz? || i.Jmp? || i.IncSp? || i.RetI? || i.RetV? || i.WLab? || i.NoIntI? || i.IntI?
  }

  lemma LegalForms(b: Bounds, i: Insn)
    requires Legal(b, i)
    ensures Flows(i) || i.Mov? || i.CastI? || i.Un? || i.IncDec? || i.IncDecP? || i.Bin? || i.CmpI?
            || i.PushR? || i.Push? || i.CallI? || i.CallV?
  {
  }

  lemma MoveSteps(b: Bounds, code: seq<Insn>, l: Local, fill: Fill)
    requires l.ip < |code| && Legal(b, code[l.ip]) && Room(b, l, code[l.ip])
    requires var i := code[l.ip]; i.Mov? || i.CastI? || i.Un? || i.IncDec? || i.IncDecP?
    ensures StepsWell(code, l, fill)
  {
    var i := code[l.ip];
    hide Fits, InBounds, Get, Set, Alu, AluUn, CastPat, Bump, UnLegal;
    FitsReads(b, l, i.dst);
    if !i.IncDec? {
      FitsReads(b, l, i.src);
    }
  }

  lemma PairSteps(b: Bounds, code: seq<Insn>, l: Local, fill: Fill)
    requires l.ip < |code| && Legal(b, code[l.ip]) && Room(b, l, code[l.ip]) && (code[l.ip].Bin? || code[l.ip].CmpI?)
    ensures StepsWell(code, l, fill)
  {
    var i := code[l.ip];
    hide Fits, InBounds, Get, Set, Alu, AluCmp;
    FitsReads(b, l, i.dst);
    FitsReads(b, l, i.src1);
    FitsReads(b, l, i.src2);
  }

  lemma CallSteps(b: Bounds, code: seq<Insn>, l: Local, fill: Fill)
    requires l.ip < |code| && Legal(b, code[l.ip]) && Room(b, l, code[l.ip])
    requires var i := code[l.ip]; i.PushR? || i.Push? || i.CallI? || i.CallV?
    ensures StepsWell(code, l, fill)
  {
    var i := code[l.ip];
    hide Fits, InBounds, Get, Set, Write, Aligned8;
    if i.PushR? {
      FitsReads(b, l, i.ssp);
    } else if i.Push? {
      FitsReads(b, l, i.src);
      FitsSized(b, i.src);
    } else {
      FitsReads(b, l, i.base);
      ConstantReads(l, i.fn);
    }
  }

  lemma FlowSteps(b: Bounds, code: seq<Insn>, l: Local, fill: Fill)
    requires l.ip < |code| && Legal(b, code[l.ip]) && Room(b, l, code[l.ip])
    requires Flows(code[l.ip])
    ensures StepsWell(code, l, fill)
  {
    var i := code[l.ip];
    hide Fits, InBounds, Get, Fresh, Read, HandleReturn;
    if i.Jz? || i.Jnz? {
      FitsReads(b, l, i.cond);
      FitsSized(b, i.cond);
    }
  }

  lemma FitsSized(b: Bounds, o: Opd)
    requires Fits(b, o)
    ensures o.size > 0
  {
  }

  lemma ConstantReads(l: Local, fn: Opd)
    requires Callable(fn)
    ensures InBounds(l, fn)
  {
  }

  // ---------- operands have the types of their expressions ----------

  predicate OpdIs(o: Opd, ty: Ty) {
    o.size == ty.Size() && o.signd == ty.Signed()
  }

  lemma VarTyped(c: Ctx, x: nat)
    requires Wf(c) && Scalar(c.f, x) && Declared(c.f, x)
    ensures var o := VarOpd(c, x);
      o.Auto? && OpdIs(o, c.f.vars[x].ty.value) && o.off + o.size <= c.frame && VarTy(c, x) == c.f.vars[x].ty.value
  {
    hide Declared, FrameLay, Wf;
    SlotFacts(c, x);
  }

  lemma TempTyped(t: nat, ty: Ty)
    ensures var o := TempAt(t, ty);
      o.Temp? && OpdIs(o, ty) && o.off + o.size == AllocEnd(t, ty.Size())
  {
    hide AlignUp;
  }

  lemma NumTyped(v: nat)
    ensures OpdIs(Imm(false, v, NumTy(v).Size()), NumTy(v))
  {
  }

  lemma NamesTyped(c: Ctx, e: Expr)
    requires TypeOf(c.p, c.f, e).TInt? && (e.Name? || e.Assign? || e.AssignOp? || e.PreInc? || e.PostInc?)
    ensures Scalar(c.f, e.x) && Declared(c.f, e.x) && TypeOf(c.p, c.f, e) == TInt(c.f.vars[e.x].ty.value)
  {
    hide Scalar, Declared;
  }

  lemma ValTyIs(c: Ctx, e: Expr)
    requires TypeOf(c.p, c.f, e).TInt?
    ensures ValTy(c, e) == TypeOf(c.p, c.f, e).ty && HasValue(c, e)
  {
    hide TypeOf;
  }

  lemma LogicTypes(c: Ctx, e: Expr)
    requires TypeOf(c.p, c.f, e).TInt? && (e.Conj? || e.Disj? || e.Cmp?)
    ensures TypeOf(c.p, c.f, e) == TInt(U8)
  {
  }

  lemma InnerTypes(c: Ctx, e: Expr)
    requires TypeOf(c.p, c.f, e).TInt? && (e.Comma? || e.UPlus?)
    ensures TypeOf(c.p, c.f, e) == TypeOf(c.p, c.f, if e.Comma? then e.r else e.e)
  {
  }

  lemma CastTypes(c: Ctx, e: Expr)
    requires TypeOf(c.p, c.f, e).TInt? && e.Cast?
    ensures TypeOf(c.p, c.f, e) == TInt(e.to)
  {
  }

  /** The operand gen_expr hands back has the size and the sign of the expression's type, and lies in the frame or
      below the allocator's offset. */
  lemma {:induction false} OperandTyped(c: Ctx, e: Expr, t: nat)
    requires Wf(c) && TypeOf(c.p, c.f, e).TInt?
    ensures OpdIs(ResOpd(c, e, t), TypeOf(c.p, c.f, e).ty)
    ensures var o := ResOpd(c, e, t);
      && (o.Temp? ==> o.off + o.size <= TempEnd(c, e, t)) && (o.Auto? ==> o.off + o.size <= c.frame)
    decreases e
  {
    hide Wf, VarOpd, TempAt, AllocEnd, TypeOf, OpdIs, ValTy, VarTy, NumTy, TempEnd, ResOpd, Peak, HasValue;
    ValTyIs(c, e);
    match e
    case Num(v) =>
      NumTyped(v);
      NumParts(c, e, t);
    case Bool(_) => NumParts(c, e, t);
    case Name(x) =>
      NamesTyped(c, e);
      VarTyped(c, x);
      NumParts(c, e, t);
    case Assign(x, _) =>
      NamesTyped(c, e);
      VarTyped(c, x);
      AssignTemporaries(c, e, t);
    case AssignOp(_, x, _) =>
      NamesTyped(c, e);
      VarTyped(c, x);
      AssignTemporaries(c, e, t);
    case Arith(_, l, r) =>
      PairTemporaries(c, e, t);
      TempTyped(TempEnd(c, r, TempEnd(c, l, t)), ValTy(c, e));
    case Cmp(_, l, r) =>
      LogicTypes(c, e);
      PairTemporaries(c, e, t);
      TempTyped(TempEnd(c, r, TempEnd(c, l, t)), U8);
    case Conj(l, r) => LogicTyped(c, e, t);
    case Disj(l, r) => LogicTyped(c, e, t);
    case Comma(_, r) =>
      InnerTypes(c, e);
      OperandTyped(c, r, t);
      InnerParts(c, e, t);
    case UPlus(a) =>
      InnerTypes(c, e);
      OperandTyped(c, a, t);
      InnerParts(c, e, t);
    case Cast(a, to) =>
      CastTypes(c, e);
      UnaryTemporaries(c, e, t);
      TempTyped(TempEnd(c, a, t), to);
    case UMinus(a) =>
      UnaryTemporaries(c, e, t);
      TempTyped(TempEnd(c, a, t), ValTy(c, e));
    case LNot(a) =>
      UnaryTemporaries(c, e, t);
      TempTyped(TempEnd(c, a, t), ValTy(c, e));
    case BNot(a) =>
      UnaryTemporaries(c, e, t);
      TempTyped(TempEnd(c, a, t), ValTy(c, e));
    case PreInc(_, x) =>
      NamesTyped(c, e);
      VarTyped(c, x);
      BumpParts(c, e, t);
    case PostInc(_, x) =>
      NamesTyped(c, e);
      VarTyped(c, x);
      BumpParts(c, e, t);
      TempTyped(t, VarTy(c, x));
    case Tern(k, _, b) =>
      TernTemporaries(c, e, t);
      TempTyped(TempEnd(c, k, t), ValTy(c, e));
    case Call(_, args) =>
      CallTemporaries(c, e, t);
      TempTyped(TempEndArgs(c, args, AllocEnd(t, 8)), ValTy(c, e));
  }

  lemma NumParts(c: Ctx, e: Expr, t: nat)
    requires e.Num? || e.Bool? || e.Name?
    ensures TempEnd(c, e, t) == t
    ensures ResOpd(c, e, t) == match e
                               case Num(v) => Imm(false, v, NumTy(v).Size())
                               case Bool(b) => Imm(false, if b then 1 else 0, 1)
                               case Name(x) => VarOpd(c, x)
    ensures e.Num? && TypeOf(c.p, c.f, e).TInt? ==> TypeOf(c.p, c.f, e) == TInt(NumTy(e.val))
    ensures e.Bool? ==> TypeOf(c.p, c.f, e) == TInt(U8) && OpdIs(ResOpd(c, e, t), U8)
  {
    hide VarOpd;
  }

  lemma InnerParts(c: Ctx, e: Expr, t: nat)
    requires e.Comma? || e.UPlus?
    ensures var a := if e.Comma? then e.r else e.e;
      && TempEnd(c, e, t) == TempEnd(c, a, t) && ResOpd(c, e, t) == ResOpd(c, a, t)
      && (e.UPlus? ==> Peak(c, e, t) == Peak(c, a, t))
      && (e.Comma? ==> Peak(c, e, t) == Max(Peak(c, e.l, t), Peak(c, e.r, t)))
  {
  }

  lemma BumpParts(c: Ctx, e: Expr, t: nat)
    requires e.PreInc? || e.PostInc?
    ensures ResOpd(c, e, t) == if e.PreInc? then VarOpd(c, e.x) else TempAt(t, VarTy(c, e.x))
    ensures TempEnd(c, e, t) == if e.PreInc? then t else AllocEnd(t, VarTy(c, e.x).Size())
    ensures Peak(c, e, t) == TempEnd(c, e, t)
  {
    hide VarOpd, VarTy, TempAt, AllocEnd;
  }

  lemma LogicTyped(c: Ctx, e: Expr, t: nat)
    requires TypeOf(c.p, c.f, e).TInt? && (e.Conj? || e.Disj?)
    ensures var o := ResOpd(c, e, t);
      OpdIs(o, TypeOf(c.p, c.f, e).ty) && o.Temp? && o.off + o.size <= TempEnd(c, e, t)
  {
    hide TypeOf, AllocEnd, TempAt, TempEnd, ResOpd, Peak, OpdIs;
    LogicTypes(c, e);
    LogicTemporaries(c, e, t);
    TempTyped(TempEnd(c, e.l, t), U8);
  }

  // ---------- every instruction of a function ----------

  predicate LegalAt(code: seq<Insn>, b: Bounds, i: nat) {
    i < |code| && Legal(b, code[i])
  }

  predicate LegalIn(code: seq<Insn>, b: Bounds, from: nat, to: nat) {
    forall i: nat :: from <= i < to ==> LegalAt(code, b, i)
  }

  lemma JoinLegal(code: seq<Insn>, b: Bounds, from: nat, mid: nat, to: nat)
    requires from <= mid <= to && LegalIn(code, b, from, mid) && LegalIn(code, b, mid, to)
    ensures LegalIn(code, b, from, to)
  {
    hide LegalAt;
  }

  lemma OneLegal(code: seq<Insn>, b: Bounds, i: nat, insn: Insn)
    requires At(code, i, insn) && Legal(b, insn)
    ensures LegalIn(code, b, i, i + 1)
  {
    hide Legal;
  }

  lemma NoneLegal(code: seq<Insn>, b: Bounds, i: nat)
    ensures LegalIn(code, b, i, i)
  {
  }

  ghost predicate FnsCallable(c: Ctx) {
    forall g :: 0 <= g < |c.fns| ==> Callable(c.fns[g])
  }

  /** The bounds are those of the context's function, with room for the code up to `end` and its temporaries. */
  ghost predicate Around(c: Ctx, b: Bounds, p: nat, end: nat) {
    Wf(c) && FnsCallable(c) && b.frame == c.frame && b.lo <= p <= end < b.hi
  }

  lemma Narrower(c: Ctx, b: Bounds, p: nat, end: nat, p': nat, end': nat)
    requires Around(c, b, p, end) && p <= p' <= end' <= end
    ensures Around(c, b, p', end')
  {
    hide Wf, FnsCallable;
  }

  /** The operand of an expression with a value. */
  lemma ValueFits(c: Ctx, b: Bounds, p: nat, end: nat, e: Expr, t: nat)
    requires Around(c, b, p, end) && TypeOf(c.p, c.f, e).TInt? && Peak(c, e, t) <= b.tsize
    ensures Fits(b, ResOpd(c, e, t)) && OpdIs(ResOpd(c, e, t), TypeOf(c.p, c.f, e).ty)
  {
    hide Wf, FnsCallable, TypeOf, ResOpd, TempEnd, Peak;
    OperandTyped(c, e, t);
  }

  lemma VarFits(c: Ctx, b: Bounds, p: nat, end: nat, x: nat)
    requires Around(c, b, p, end) && Scalar(c.f, x) && Declared(c.f, x)
    ensures Place(b, VarOpd(c, x)) && OpdIs(VarOpd(c, x), c.f.vars[x].ty.value)
  {
    hide Wf, FnsCallable, Declared, VarOpd, Scalar;
    VarTyped(c, x);
  }

  lemma TempFits(b: Bounds, t: nat, ty: Ty)
    requires AllocEnd(t, ty.Size()) <= b.tsize
    ensures Place(b, TempAt(t, ty)) && OpdIs(TempAt(t, ty), ty)
  {
    hide AllocEnd, TempAt;
    TempTyped(t, ty);
  }

  lemma Bounded(b: Bounds, i: Insn)
    requires (i.Jz? && Fits(b, i.cond) && Inside(b, i.loc)) || (i.Jnz? && Fits(b, i.cond) && Inside(b, i.loc))
             || (i.Jmp? && Inside(b, i.loc))
    ensures Legal(b, i)
  {
  }

  lemma MoveLegal(b: Bounds, d: Opd, s: Opd, ty: Ty)
    requires Place(b, d) && Fits(b, s) && OpdIs(d, ty) && OpdIs(s, ty)
    ensures Legal(b, Mov(d, s))
  {
  }

  lemma BinLegal(b: Bounds, op: ArithOp, d: Opd, x: Opd, y: Opd, ty: Ty, tx: Ty, ty': Ty)
    requires Place(b, d) && Fits(b, x) && Fits(b, y) && OpdIs(d, ty) && OpdIs(x, tx) && OpdIs(y, ty')
    requires SameWord(ty, tx) && SameWord(tx, ty')
    ensures Legal(b, Bin(op, d, x, y))
  {
    hide Fits;
  }

  lemma CmpLegal(b: Bounds, op: CmpOp, d: Opd, x: Opd, y: Opd, tx: Ty, ty': Ty)
    requires Place(b, d) && Fits(b, x) && Fits(b, y) && OpdIs(d, U8) && OpdIs(x, tx) && OpdIs(y, ty') && SameWord(tx, ty')
    ensures Legal(b, CmpI(op, d, x, y))
  {
    hide Fits;
  }

  lemma UnaryLegal(b: Bounds, e: Expr, d: Opd, s: Opd, ty: Ty)
    requires e.Cast? || e.UMinus? || e.LNot? || e.BNot?
    requires Place(b, d) && Fits(b, s) && OpdIs(s, ty) && (e.BNot? ==> !ty.Signed())
    requires OpdIs(d, if e.Cast? then e.to else if e.UMinus? then ty.Negated() else ty)
    ensures Legal(b, UnaryInsn(e, d, s))
  {
    hide Fits;
  }

  lemma MaskLegal(b: Bounds, d: Opd, conj: bool)
    requires Place(b, d) && OpdIs(d, U8)
    ensures Legal(b, MaskInsn(conj, d))
  {
  }

  lemma OzLegal(b: Bounds, d: Opd, s: Opd, ty: Ty)
    requires Place(b, d) && OpdIs(d, U8) && Fits(b, s) && OpdIs(s, ty)
    ensures Legal(b, Un(OzOp, d, s))
  {
    hide Fits;
  }

  lemma SameWordRefl(ty: Ty)
    ensures SameWord(ty, ty)
  {
  }

  lemma BinOkWords(op: ArithOp, a: ETy, b: ETy)
    requires BinOk(op, a, b)
    ensures a.TInt? && b.TInt? && SameWord(a.ty, b.ty)
  {
  }

  /** Every instruction of a checked expression's code is legal. */
  lemma {:induction false} ExprLegal(code: seq<Insn>, c: Ctx, b: Bounds, p: nat, t: nat, e: Expr)
    requires Around(c, b, p, p + Len(e)) && !TypeOf(c.p, c.f, e).TErr?
    requires Placed(code, c, p, t, e) && Peak(c, e, t) <= b.tsize
    ensures LegalIn(code, b, p, p + Len(e))
    decreases e
  {
    hide *;
    Lengths(e);
    match e
    case Num(_) => NoneLegal(code, b, p);
    case Bool(_) => NoneLegal(code, b, p);
    case Name(_) => NoneLegal(code, b, p);
    case UPlus(a) =>
      PlusPlaced(code, c, p, t, e);
      PlusTypes(c, e);
      InnerParts(c, e, t);
      ExprLegal(code, c, b, p, t, a);
    case Assign(_, _) => AssignLegal(code, c, b, p, t, e);
    case AssignOp(_, _, _) => AssignLegal(code, c, b, p, t, e);
    case PreInc(_, _) => BumpLegal(code, c, b, p, t, e);
    case PostInc(_, _) => BumpLegal(code, c, b, p, t, e);
    case Arith(_, _, _) => PairLegal(code, c, b, p, t, e);
    case Cmp(_, _, _) => PairLegal(code, c, b, p, t, e);
    case Conj(_, _) => LogicLegal(code, c, b, p, t, e);
    case Disj(_, _) => LogicLegal(code, c, b, p, t, e);
    case Comma(l, r) =>
      CommaPlaced(code, c, p, t, e);
      Soundness.CommaTypes(c.p, c.f, e);
      InnerParts(c, e, t);
      MaxBounds(Peak(c, l, t), Peak(c, r, t));
      Narrower(c, b, p, p + Len(e), p, p + Len(l));
      Narrower(c, b, p, p + Len(e), p + Len(l), p + Len(e));
      ExprLegal(code, c, b, p, t, l);
      ExprLegal(code, c, b, p + Len(l), t, r);
      JoinLegal(code, b, p, p + Len(l), p + Len(e));
    case Cast(_, _) => OneOperandLegal(code, c, b, p, t, e);
    case UMinus(_) => OneOperandLegal(code, c, b, p, t, e);
    case LNot(_) => OneOperandLegal(code, c, b, p, t, e);
    case BNot(_) => OneOperandLegal(code, c, b, p, t, e);
    case Tern(_, _, _) => TernLegal(code, c, b, p, t, e);
    case Call(_, _) => CallLegal(code, c, b, p, t, e);
  }

  lemma MaxBounds(x: nat, y: nat)
    ensures x <= Max(x, y) && y <= Max(x, y)
  {
  }

  lemma PlusTypes(c: Ctx, e: Expr)
    requires e.UPlus? && !TypeOf(c.p, c.f, e).TErr?
    ensures !TypeOf(c.p, c.f, e.e).TErr?
  {
  }

  lemma {:induction false} AssignLegal(code: seq<Insn>, c: Ctx, b: Bounds, p: nat, t: nat, e: Expr)
    requires Around(c, b, p, p + Len(e)) && !TypeOf(c.p, c.f, e).TErr? && (e.Assign? || e.AssignOp?)
    requires Placed(code, c, p, t, e) && Peak(c, e, t) <= b.tsize
    ensures LegalIn(code, b, p, p + Len(e))
    decreases e, 0
  {
    hide *;
    Lengths(e);
    AssignPlaced(code, c, p, t, e);
    AssignTemporaries(c, e, t);
    MaxBounds(Peak(c, e.rhs, t), TempEnd(c, e, t));
    Soundness.StoreTypes(c.p, c.f, e);
    StoreDeclared(c, e);
    var n := p + Len(e.rhs);
    Narrower(c, b, p, p + Len(e), p, n);
    ExprLegal(code, c, b, p, t, e.rhs);
    ValueFits(c, b, p, n, e.rhs, t);
    VarFits(c, b, p, n, e.x);
    PlaceFits(b, VarOpd(c, e.x));
    var ty, src := c.f.vars[e.x].ty.value, ResOpd(c, e.rhs, t);
    if e.Assign? {
      MoveLegal(b, VarOpd(c, e.x), src, ty);
      OneLegal(code, b, n, Mov(VarOpd(c, e.x), src));
    } else {
      BinOkWords(e.op, TInt(ty), TypeOf(c.p, c.f, e.rhs));
      SameWordRefl(ty);
      BinLegal(b, e.op, VarOpd(c, e.x), VarOpd(c, e.x), src, ty, ty, TypeOf(c.p, c.f, e.rhs).ty);
      OneLegal(code, b, n, Bin(e.op, VarOpd(c, e.x), VarOpd(c, e.x), src));
    }
    JoinLegal(code, b, p, n, n + 1);
  }

  lemma PlaceFits(b: Bounds, o: Opd)
    requires Place(b, o)
    ensures Fits(b, o)
  {
  }

  lemma StoreDeclared(c: Ctx, e: Expr)
    requires !TypeOf(c.p, c.f, e).TErr? && (e.Assign? || e.AssignOp? || e.PreInc? || e.PostInc?)
    ensures Declared(c.f, e.x)
    ensures e.Assign? || e.AssignOp? ==> TypeOf(c.p, c.f, e.rhs).TInt?
  {
    hide Declared, Scalar;
  }

  lemma {:induction false} BumpLegal(code: seq<Insn>, c: Ctx, b: Bounds, p: nat, t: nat, e: Expr)
    requires Around(c, b, p, p + Len(e)) && !TypeOf(c.p, c.f, e).TErr? && (e.PreInc? || e.PostInc?)
    requires Placed(code, c, p, t, e) && Peak(c, e, t) <= b.tsize
    ensures LegalIn(code, b, p, p + Len(e))
  {
    hide *;
    Lengths(e);
    BumpPlaced(code, c, p, t, e);
    BumpParts(c, e, t);
    Soundness.StoreTypes(c.p, c.f, e);
    StoreDeclared(c, e);
    VarFits(c, b, p, p + Len(e), e.x);
    var ty, v := c.f.vars[e.x].ty.value, VarOpd(c, e.x);
    VarTyIs(c, e.x);
    if e.PreInc? {
      BumpInsnLegal(b, e.up, v, v, ty);
      OneLegal(code, b, p, IncDec(e.up, v));
    } else {
      TempFits(b, t, ty);
      BumpInsnLegal(b, e.up, TempAt(t, ty), v, ty);
      OneLegal(code, b, p, IncDecP(e.up, TempAt(t, ty), v));
    }
  }

  lemma VarTyIs(c: Ctx, x: nat)
    requires Scalar(c.f, x)
    ensures VarTy(c, x) == c.f.vars[x].ty.value
  {
  }

  lemma BumpInsnLegal(b: Bounds, up: bool, d: Opd, s: Opd, ty: Ty)
    requires Place(b, d) && Place(b, s) && OpdIs(d, ty) && OpdIs(s, ty)
    ensures Legal(b, IncDec(up, d)) && Legal(b, IncDecP(up, d, s))
  {
    hide Fits;
  }

  lemma {:induction false} PairLegal(code: seq<Insn>, c: Ctx, b: Bounds, p: nat, t: nat, e: Expr)
    requires Around(c, b, p, p + Len(e)) && !TypeOf(c.p, c.f, e).TErr? && (e.Arith? || e.Cmp?)
    requires Placed(code, c, p, t, e) && Peak(c, e, t) <= b.tsize
    ensures LegalIn(code, b, p, p + Len(e))
    decreases e, 0
  {
    hide *;
    Lengths(e);
    PairPlaced(code, c, p, t, e);
    PairTemporaries(c, e, t);
    Soundness.PairTypes(c.p, c.f, e);
    var t1 := TempEnd(c, e.l, t);
    MaxBounds(Peak(c, e.r, t1), TempEnd(c, e, t));
    MaxBounds(Peak(c, e.l, t), Max(Peak(c, e.r, t1), TempEnd(c, e, t)));
    var m, n := p + Len(e.l), p + Len(e.l) + Len(e.r);
    Narrower(c, b, p, p + Len(e), p, m);
    Narrower(c, b, p, p + Len(e), m, n);
    ExprLegal(code, c, b, p, t, e.l);
    ExprLegal(code, c, b, m, t1, e.r);
    ValueFits(c, b, p, m, e.l, t);
    ValueFits(c, b, m, n, e.r, t1);
    var tl, tr := TypeOf(c.p, c.f, e.l).ty, TypeOf(c.p, c.f, e.r).ty;
    BinOkWords(if e.Arith? then e.op else Add, TypeOf(c.p, c.f, e.l), TypeOf(c.p, c.f, e.r));
    SameWordRefl(tl);
    ValTyIs(c, e);
    var ty := if e.Cmp? then U8 else ValTy(c, e);
    TempFits(b, TempEnd(c, e.r, t1), ty);
    var d, x, y := ResOpd(c, e, t), ResOpd(c, e.l, t), ResOpd(c, e.r, t1);
    if e.Arith? {
      BinLegal(b, e.op, d, x, y, ty, tl, tr);
      OneLegal(code, b, n, Bin(e.op, d, x, y));
    } else {
      CmpLegal(b, e.cmp, d, x, y, tl, tr);
      OneLegal(code, b, n, CmpI(e.cmp, d, x, y));
    }
    JoinLegal(code, b, p, m, n);
    JoinLegal(code, b, p, n, n + 1);
  }

  lemma {:induction false} OneOperandLegal(code: seq<Insn>, c: Ctx, b: Bounds, p: nat, t: nat, e: Expr)
    requires Around(c, b, p, p + Len(e)) && !TypeOf(c.p, c.f, e).TErr?
    requires e.Cast? || e.UMinus? || e.LNot? || e.BNot?
    requires Placed(code, c, p, t, e) && Peak(c, e, t) <= b.tsize
    ensures LegalIn(code, b, p, p + Len(e))
    decreases e, 0
  {
    hide *;
    Lengths(e);
    UnaryPlaced(code, c, p, t, e);
    UnaryTemporaries(c, e, t);
    Soundness.UnaryTypes(c.p, c.f, e);
    MaxBounds(Peak(c, e.e, t), TempEnd(c, e, t));
    var n := p + Len(e.e);
    Narrower(c, b, p, p + Len(e), p, n);
    ExprLegal(code, c, b, p, t, e.e);
    ValueFits(c, b, p, n, e.e, t);
    ValTyIs(c, e);
    var ty := if e.Cast? then e.to else ValTy(c, e);
    TempFits(b, TempEnd(c, e.e, t), ty);
    UnaryLegal(b, e, ResOpd(c, e, t), ResOpd(c, e.e, t), TypeOf(c.p, c.f, e.e).ty);
    OneLegal(code, b, n, UnaryInsn(e, ResOpd(c, e, t), ResOpd(c, e.e, t)));
    JoinLegal(code, b, p, n, n + 1);
  }

  lemma {:induction false} LogicLegal(code: seq<Insn>, c: Ctx, b: Bounds, p: nat, t: nat, e: Expr)
    requires Around(c, b, p, p + Len(e)) && !TypeOf(c.p, c.f, e).TErr? && (e.Conj? || e.Disj?)
    requires Placed(code, c, p, t, e) && Peak(c, e, t) <= b.tsize
    ensures LegalIn(code, b, p, p + Len(e))
    decreases e, 0
  {
    hide *;
    Lengths(e);
    LogicPlaced(code, c, p, t, e);
    LogicTemporaries(c, e, t);
    Soundness.PairTypes(c.p, c.f, e);
    var t0 := TempEnd(c, e.l, t);
    var t1 := AllocEnd(t0, 1);
    MaxBounds(Peak(c, e.l, t), Peak(c, e.r, t1));
    var m, q := p + Len(e.l), p + Len(e.l) + 2;
    var n := q + Len(e.r);
    Narrower(c, b, p, p + Len(e), p, m);
    Narrower(c, b, p, p + Len(e), q, n);
    ExprLegal(code, c, b, p, t, e.l);
    ExprLegal(code, c, b, q, t1, e.r);
    ValueFits(c, b, p, m, e.l, t);
    ValueFits(c, b, q, n, e.r, t1);
    TempFits(b, t0, U8);
    var d, x, y := TempAt(t0, U8), ResOpd(c, e.l, t), ResOpd(c, e.r, t1);
    OzLegal(b, d, x, TypeOf(c.p, c.f, e.l).ty);
    OzLegal(b, d, y, TypeOf(c.p, c.f, e.r).ty);
    MaskLegal(b, d, e.Conj?);
    var jump := if e.Conj? then Jz(x, n + 2) else Jnz(x, n + 2);
    AroundInside(c, b, p, p + Len(e), n + 2);
    Bounded(b, jump);
    OneLegal(code, b, m, Un(OzOp, d, x));
    OneLegal(code, b, m + 1, jump);
    OneLegal(code, b, n, Un(OzOp, d, y));
    OneLegal(code, b, n + 1, MaskInsn(e.Conj?, d));
    JoinLegal(code, b, p, m, m + 1);
    JoinLegal(code, b, p, m + 1, q);
    JoinLegal(code, b, p, q, n);
    JoinLegal(code, b, p, n, n + 1);
    JoinLegal(code, b, p, n + 1, n + 2);
  }

  lemma AroundInside(c: Ctx, b: Bounds, p: nat, end: nat, loc: nat)
    requires Around(c, b, p, end) && p <= loc <= end
    ensures Inside(b, loc)
  {
    hide Wf, FnsCallable;
  }

  lemma {:induction false} TernLegal(code: seq<Insn>, c: Ctx, b: Bounds, p: nat, t: nat, e: Expr)
    requires Around(c, b, p, p + Len(e)) && !TypeOf(c.p, c.f, e).TErr? && e.Tern?
    requires Placed(code, c, p, t, e) && Peak(c, e, t) <= b.tsize
    ensures LegalIn(code, b, p, p + Len(e))
    decreases e, 0
  {
    hide *;
    Lengths(e);
    TernPlaced(code, c, p, t, e);
    TernTemporaries(c, e, t);
    Soundness.TernTypes(c.p, c.f, e);
    ValTyIs(c, e);
    var t0, t1 := TempEnd(c, e.c, t), TernBase(c, e, t);
    MaxBounds(Peak(c, e.t, t1), Peak(c, e.f, t1));
    MaxBounds(Peak(c, e.c, t), Max(Peak(c, e.t, t1), Peak(c, e.f, t1)));
    var m, pa := p + Len(e.c), p + Len(e.c) + 1;
    var na, pb := pa + Len(e.t), pa + Len(e.t) + 2;
    var n := pb + Len(e.f);
    Narrower(c, b, p, p + Len(e), p, m);
    Narrower(c, b, p, p + Len(e), pa, na);
    Narrower(c, b, p, p + Len(e), pb, n);
    ExprLegal(code, c, b, p, t, e.c);
    ExprLegal(code, c, b, pa, t1, e.t);
    ExprLegal(code, c, b, pb, t1, e.f);
    ValueFits(c, b, p, m, e.c, t);
    ValueFits(c, b, pa, na, e.t, t1);
    ValueFits(c, b, pb, n, e.f, t1);
    BranchBase(c, e, t1);
    TempFits(b, t0, ValTy(c, e));
    var d := ResOpd(c, e, t);
    MoveLegal(b, d, ResOpd(c, e.t, t1), ValTy(c, e));
    MoveLegal(b, d, ResOpd(c, e.f, t1), ValTy(c, e));
    AroundInside(c, b, p, p + Len(e), pb);
    AroundInside(c, b, p, p + Len(e), n + 1);
    Bounded(b, Jz(ResOpd(c, e.c, t), pb));
    Bounded(b, Jmp(n + 1));
    OneLegal(code, b, m, Jz(ResOpd(c, e.c, t), pb));
    OneLegal(code, b, na, Mov(d, ResOpd(c, e.t, t1)));
    OneLegal(code, b, na + 1, Jmp(n + 1));
    OneLegal(code, b, n, Mov(d, ResOpd(c, e.f, t1)));
    JoinLegal(code, b, p, m, pa);
    JoinLegal(code, b, p, pa, na);
    JoinLegal(code, b, p, na, na + 1);
    JoinLegal(code, b, p, na + 1, pb);
    JoinLegal(code, b, p, pb, n);
    JoinLegal(code, b, p, n, n + 1);
  }

  /** The result's slot lies below the branches' temporaries. */
  lemma BranchBase(c: Ctx, e: Expr, t1: nat)
    requires e.Tern?
    ensures t1 <= Peak(c, e.f, t1)
  {
    hide Peak, TempEnd;
  }

  lemma CallTypes(c: Ctx, e: Expr)
    requires e.Call? && !TypeOf(c.p, c.f, e).TErr?
    ensures e.g < |c.p| && ArgsOk(c.p, c.f, e.args, c.p[e.g], 0)
    ensures HasValue(c, e) <==> TypeOf(c.p, c.f, e).TInt?
  {
    hide ArgsOk;
  }

  lemma CallInsnLegal(c: Ctx, b: Bounds, e: Expr, t: nat)
    requires e.Call? && e.g < |c.fns| && FnsCallable(c) && Place(b, TempAt(t, U64)) && WordTemp(TempAt(t, U64))
    requires HasValue(c, e) ==> Place(b, ResOpd(c, e, t))
    ensures Legal(b, CallInsn(c, e, t))
  {
    hide HasValue, ResOpd, TempAt;
  }

  lemma AroundParts(c: Ctx, b: Bounds, p: nat, end: nat)
    requires Around(c, b, p, end)
    ensures Wf(c) && FnsCallable(c) && b.frame == c.frame && b.lo <= p <= end < b.hi
  {
  }

  lemma SaveLegal(b: Bounds, r: nat, t: nat)
    requires AllocEnd(t, 8) <= b.tsize && Inside(b, r)
    ensures Place(b, TempAt(t, U64)) && WordTemp(TempAt(t, U64)) && Legal(b, PushR(r, TempAt(t, U64)))
  {
    hide AllocEnd, TempAt;
    TempFits(b, t, U64);
    TempTyped(t, U64);
  }

  lemma {:induction false} CallLegal(code: seq<Insn>, c: Ctx, b: Bounds, p: nat, t: nat, e: Expr)
    requires Around(c, b, p, p + Len(e)) && !TypeOf(c.p, c.f, e).TErr? && e.Call?
    requires Placed(code, c, p, t, e) && Peak(c, e, t) <= b.tsize
    ensures LegalIn(code, b, p, p + Len(e))
    decreases e, 0
  {
    hide *;
    Lengths(e);
    CallPlaced(code, c, p, t, e);
    CallTemporaries(c, e, t);
    CallTypes(c, e);
    AroundParts(c, b, p, p + Len(e));
    var t1, q := AllocEnd(t, 8), p + 1 + LenArgs(e.args);
    var t2 := TempEndArgs(c, e.args, t1);
    MaxBounds(PeakArgs(c, e.args, t1), TempEnd(c, e, t));
    Narrower(c, b, p, p + Len(e), p + 1, q);
    ArgsLegal(code, c, b, p + 1, t1, e.args, c.p[e.g], 0);
    AroundInside(c, b, p, p + Len(e), q);
    ArgsBase(c, e.args, t1);
    SaveLegal(b, q, t);
    if HasValue(c, e) {
      ValTyIs(c, e);
      TempFits(b, t2, ValTy(c, e));
    }
    CallInsnLegal(c, b, e, t);
    OneLegal(code, b, p, PushR(q, TempAt(t, U64)));
    OneLegal(code, b, q, CallInsn(c, e, t));
    JoinLegal(code, b, p, p + 1, q);
    JoinLegal(code, b, p, q, q + 1);
  }

  lemma ArgsBase(c: Ctx, args: Args, t: nat)
    ensures t <= PeakArgs(c, args, t)
  {
    hide PeakArgs, TempEndArgs;
  }

  lemma ArgTypes(c: Ctx, args: Args, g: Func, i: nat)
    requires ArgsOk(c.p, c.f, args, g, i) && args.Arg?
    ensures TypeOf(c.p, c.f, args.head).TInt? && ArgsOk(c.p, c.f, args.tail, g, i + 1)
  {
    hide TypeOf, Scalar;
  }

  lemma ArgParts(c: Ctx, args: Args, t: nat)
    ensures args.NoArgs? ==> LenArgs(args) == 0
    ensures args.Arg? ==> LenArgs(args) == Len(args.head) + 1 + LenArgs(args.tail)
    ensures args.Arg? ==> PeakArgs(c, args, t) == Max(Peak(c, args.head, t), PeakArgs(c, args.tail, TempEnd(c, args.head, t)))
  {
    hide Len, Peak, TempEnd;
  }

  lemma PushLegal(b: Bounds, o: Opd, ty: Ty)
    requires Fits(b, o) && OpdIs(o, ty)
    ensures Legal(b, Push(o))
  {
    hide Fits;
  }

  lemma {:induction false} ArgsLegal(code: seq<Insn>, c: Ctx, b: Bounds, p: nat, t: nat, args: Args, g: Func, i: nat)
    requires Around(c, b, p, p + LenArgs(args)) && ArgsOk(c.p, c.f, args, g, i)
    requires PlacedArgs(code, c, p, t, args) && PeakArgs(c, args, t) <= b.tsize
    ensures LegalIn(code, b, p, p + LenArgs(args))
    decreases args
  {
    hide *;
    ArgParts(c, args, t);
    if args.NoArgs? {
      NoneLegal(code, b, p);
    } else {
      ArgTypes(c, args, g, i);
      ArgPlaced(code, c, p, t, args);
      var a, t1 := args.head, TempEnd(c, args.head, t);
      MaxBounds(Peak(c, a, t), PeakArgs(c, args.tail, t1));
      var n, end := p + Len(a), p + LenArgs(args);
      Narrower(c, b, p, end, p, n);
      Narrower(c, b, p, end, n + 1, end);
      ExprLegal(code, c, b, p, t, a);
      ValueFits(c, b, p, n, a, t);
      PushLegal(b, ResOpd(c, a, t), TypeOf(c.p, c.f, a).ty);
      OneLegal(code, b, n, Push(ResOpd(c, a, t)));
      ArgsLegal(code, c, b, n + 1, t1, args.tail, g, i + 1);
      JoinLegal(code, b, p, n, n + 1);
      JoinLegal(code, b, p, n + 1, end);
    }
  }
}
