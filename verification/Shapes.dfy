/** The `Placed` relation taken apart, one expression form at a time. */
module Shapes {
  import opened Words
  import opened Ast
  import opened Layout
  import opened Insn
  import opened Codegen

  lemma AssignPlaced(code: seq<Insn>, c: Ctx, p: nat, t: nat, e: Expr)
    requires e.Assign? || e.AssignOp?
    ensures Placed(code, c, p, t, e) <==>
      && Placed(code, c, p, t, e.rhs)
      && At(code, p + Len(e.rhs),
            if e.Assign? then Mov(VarOpd(c, e.x), ResOpd(c, e.rhs, t))
            else Bin(e.op, VarOpd(c, e.x), VarOpd(c, e.x), ResOpd(c, e.rhs, t)))
  {
    hide ResOpd, Len, At, VarOpd;
  }

  function UnaryInsn(e: Expr, dst: Opd, src: Opd): Insn
    requires e.Cast? || e.UMinus? || e.LNot? || e.BNot?
  {
    match e
    case Cast(_, _) => CastI(dst, src)
    case UMinus(_) => Un(NegOp, dst, src)
    case LNot(_) => Un(NotOp, dst, src)
    case BNot(_) => Un(BnegOp, dst, src)
  }

  lemma UnaryPlaced(code: seq<Insn>, c: Ctx, p: nat, t: nat, e: Expr)
    requires e.Cast? || e.UMinus? || e.LNot? || e.BNot?
    ensures Placed(code, c, p, t, e) <==>
      && Placed(code, c, p, t, e.e)
      && At(code, p + Len(e.e), UnaryInsn(e, ResOpd(c, e, t), ResOpd(c, e.e, t)))
  {
    hide TempEnd, ResOpd, Len, At;
  }

  lemma PairPlaced(code: seq<Insn>, c: Ctx, p: nat, t: nat, e: Expr)
    requires e.Arith? || e.Cmp?
    ensures var t1 := TempEnd(c, e.l, t);
      Placed(code, c, p, t, e) <==>
        && Placed(code, c, p, t, e.l)
        && Placed(code, c, p + Len(e.l), t1, e.r)
        && At(code, p + Len(e.l) + Len(e.r),
              if e.Arith? then Bin(e.op, ResOpd(c, e, t), ResOpd(c, e.l, t), ResOpd(c, e.r, t1))
              else CmpI(e.cmp, ResOpd(c, e, t), ResOpd(c, e.l, t), ResOpd(c, e.r, t1)))
  {
    hide TempEnd, ResOpd, Len, At;
  }

  function MaskInsn(conj: bool, dst: Opd): Insn {
    if conj then Bin(BAnd, dst, Imm(false, 1, 1), dst) else Bin(BOr, dst, Imm(false, 0, 1), dst)
  }

  lemma LogicPlaced(code: seq<Insn>, c: Ctx, p: nat, t: nat, e: Expr)
    requires e.Conj? || e.Disj?
    ensures var t0 := TempEnd(c, e.l, t);
      var t1 := AllocEnd(t0, 1);
      var dst := TempAt(t0, U8);
      var pr := p + Len(e.l) + 2;
      var end := pr + Len(e.r) + 2;
      Placed(code, c, p, t, e) <==>
        && Placed(code, c, p, t, e.l) && Placed(code, c, pr, t1, e.r)
        && At(code, p + Len(e.l), Un(OzOp, dst, ResOpd(c, e.l, t)))
        && At(code, p + Len(e.l) + 1, if e.Conj? then Jz(ResOpd(c, e.l, t), end) else Jnz(ResOpd(c, e.l, t), end))
        && At(code, pr + Len(e.r), Un(OzOp, dst, ResOpd(c, e.r, t1)))
        && At(code, pr + Len(e.r) + 1, MaskInsn(e.Conj?, dst))
  {
    hide TempEnd, ResOpd, Len, At;
  }

  lemma CommaPlaced(code: seq<Insn>, c: Ctx, p: nat, t: nat, e: Expr)
    requires e.Comma?
    ensures Placed(code, c, p, t, e) <==> Placed(code, c, p, t, e.l) && Placed(code, c, p + Len(e.l), t, e.r)
  {
    hide Len;
  }

  lemma BumpPlaced(code: seq<Insn>, c: Ctx, p: nat, t: nat, e: Expr)
    requires e.PreInc? || e.PostInc?
    ensures Placed(code, c, p, t, e) <==>
      At(code, p, if e.PreInc? then IncDec(e.up, VarOpd(c, e.x)) else IncDecP(e.up, ResOpd(c, e, t), VarOpd(c, e.x)))
  {
    hide At, ResOpd, VarOpd;
  }

  /** The allocator's offset when a branch of the ternary starts: above the result's slot. */
  function TernBase(c: Ctx, e: Expr, t: nat): nat
    requires e.Tern?
  {
    AllocEnd(TempEnd(c, e.c, t), ValTy(c, e).Size())
  }

  lemma TernPlaced(code: seq<Insn>, c: Ctx, p: nat, t: nat, e: Expr)
    requires e.Tern?
    ensures var t1 := TernBase(c, e, t);
      var pa := p + Len(e.c) + 1;
      var pb := pa + Len(e.t) + 2;
      Placed(code, c, p, t, e) <==>
        && Placed(code, c, p, t, e.c) && Placed(code, c, pa, t1, e.t) && Placed(code, c, pb, t1, e.f)
        && At(code, p + Len(e.c), Jz(ResOpd(c, e.c, t), pb))
        && At(code, pa + Len(e.t), Mov(ResOpd(c, e, t), ResOpd(c, e.t, t1)))
        && At(code, pa + Len(e.t) + 1, Jmp(pb + Len(e.f) + 1))
        && At(code, pb + Len(e.f), Mov(ResOpd(c, e, t), ResOpd(c, e.f, t1)))
  {
    hide ValTy, TempEnd, ResOpd, Len, At;
  }

  function CallInsn(c: Ctx, e: Expr, t: nat): Insn
    requires e.Call? && e.g < |c.fns|
  {
    if HasValue(c, e) then CallV(ResOpd(c, e, t), c.fns[e.g], TempAt(t, U64)) else CallI(c.fns[e.g], TempAt(t, U64))
  }

  lemma CallPlaced(code: seq<Insn>, c: Ctx, p: nat, t: nat, e: Expr)
    requires e.Call?
    ensures IsWord(8)
    ensures var ssp, q := TempAt(t, U64), p + 1 + LenArgs(e.args);
      Placed(code, c, p, t, e) <==>
        && e.g < |c.fns|
        && At(code, p, PushR(q, ssp)) && PlacedArgs(code, c, p + 1, AllocEnd(t, 8), e.args)
        && At(code, q, CallInsn(c, e, t))
  {
    hide ResOpd, At, HasValue, TempEnd, Len, LenArgs, PlacedLogic, PlacedArgs, AllocEnd, TempAt, VarOpd, TypeOf;
  }

  lemma ArgPlaced(code: seq<Insn>, c: Ctx, p: nat, t: nat, args: Args)
    requires args.Arg?
    ensures PlacedArgs(code, c, p, t, args) <==>
      && Placed(code, c, p, t, args.head) && At(code, p + Len(args.head), Push(ResOpd(c, args.head, t)))
      && PlacedArgs(code, c, p + Len(args.head) + 1, TempEnd(c, args.head, t), args.tail)
  {
    hide Placed, Len, At, ResOpd, TempEnd;
  }
}
