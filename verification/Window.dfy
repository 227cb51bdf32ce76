/** The `Placed` relation looks only at the stretch of code it is about, and determines that stretch. */
module Window {
  import opened Options
  import opened Words
  import opened Ast
  import opened Layout
  import opened Insn
  import opened Codegen
  import opened Shapes

  /** Two instruction arrays agree on [lo, hi). */
  ghost predicate SameCode(a: seq<Insn>, b: seq<Insn>, lo: nat, hi: nat) {
    hi <= |a| && hi <= |b| && forall i :: lo <= i < hi ==> a[i] == b[i]
  }

  lemma SameAt(a: seq<Insn>, b: seq<Insn>, lo: nat, hi: nat, i: nat, insn: Insn)
    requires SameCode(a, b, lo, hi) && lo <= i < hi && At(a, i, insn)
    ensures At(b, i, insn)
  {
  }

  lemma SubWindow(a: seq<Insn>, b: seq<Insn>, lo: nat, hi: nat, lo': nat, hi': nat)
    requires SameCode(a, b, lo, hi) && lo <= lo' <= hi' <= hi
    ensures SameCode(a, b, lo', hi')
  {
  }

  lemma Lengths(e: Expr)
    ensures e.Assign? || e.AssignOp? ==> Len(e) == Len(e.rhs) + 1
    ensures e.Cast? || e.UMinus? || e.LNot? || e.BNot? ==> Len(e) == Len(e.e) + 1
    ensures e.UPlus? ==> Len(e) == Len(e.e)
    ensures e.Arith? || e.Cmp? ==> Len(e) == Len(e.l) + Len(e.r) + 1
    ensures e.Conj? || e.Disj? ==> Len(e) == Len(e.l) + Len(e.r) + 4
    ensures e.Comma? ==> Len(e) == Len(e.l) + Len(e.r)
    ensures e.PreInc? || e.PostInc? ==> Len(e) == 1
    ensures e.Num? || e.Bool? || e.Name? ==> Len(e) == 0
    ensures e.Tern? ==> Len(e) == Len(e.c) + Len(e.t) + Len(e.f) + 4
    ensures e.Call? ==> Len(e) == LenArgs(e.args) + 2
  {
  }

  lemma PlusPlaced(code: seq<Insn>, c: Ctx, p: nat, t: nat, e: Expr)
    ensures e.Num? || e.Bool? || e.Name? ==> Placed(code, c, p, t, e)
    ensures e.UPlus? ==> (Placed(code, c, p, t, e) <==> Placed(code, c, p, t, e.e))
  {
  }

  /** Code is what it is whatever happens to the rest of the array: emitting more code, or back-patching a
      jump elsewhere, leaves it placed. */
  lemma {:induction false} PlacedLocal(a: seq<Insn>, b: seq<Insn>, c: Ctx, p: nat, t: nat, e: Expr)
    requires Placed(a, c, p, t, e) && SameCode(a, b, p, p + Len(e))
    ensures Placed(b, c, p, t, e)
    decreases e, 1
  {
    hide *;
    Lengths(e);
    PlusPlaced(a, c, p, t, e);
    PlusPlaced(b, c, p, t, e);
    if e.UPlus? {
      PlacedLocal(a, b, c, p, t, e.e);
    } else if e.Assign? || e.AssignOp? {
      AssignPlaced(a, c, p, t, e);
      AssignPlaced(b, c, p, t, e);
      SubWindow(a, b, p, p + Len(e), p, p + Len(e.rhs));
      PlacedLocal(a, b, c, p, t, e.rhs);
      SameAt(a, b, p, p + Len(e), p + Len(e.rhs),
             if e.Assign? then Mov(VarOpd(c, e.x), ResOpd(c, e.rhs, t))
             else Bin(e.op, VarOpd(c, e.x), VarOpd(c, e.x), ResOpd(c, e.rhs, t)));
    } else if e.Cast? || e.UMinus? || e.LNot? || e.BNot? {
      UnaryPlaced(a, c, p, t, e);
      UnaryPlaced(b, c, p, t, e);
      SubWindow(a, b, p, p + Len(e), p, p + Len(e.e));
      PlacedLocal(a, b, c, p, t, e.e);
      SameAt(a, b, p, p + Len(e), p + Len(e.e), UnaryInsn(e, ResOpd(c, e, t), ResOpd(c, e.e, t)));
    } else if e.Arith? || e.Cmp? || e.Comma? || e.Conj? || e.Disj? {
      TwoLocal(a, b, c, p, t, e);
    } else if e.PreInc? || e.PostInc? {
      BumpPlaced(a, c, p, t, e);
      BumpPlaced(b, c, p, t, e);
      SameAt(a, b, p, p + 1, p,
             if e.PreInc? then IncDec(e.up, VarOpd(c, e.x)) else IncDecP(e.up, ResOpd(c, e, t), VarOpd(c, e.x)));
    } else if e.Tern? {
      TernLocal(a, b, c, p, t, e);
    } else if e.Call? {
      CallPlaced(a, c, p, t, e);
      CallPlaced(b, c, p, t, e);
      var q := p + 1 + LenArgs(e.args);
      SubWindow(a, b, p, p + Len(e), p + 1, q);
      ArgsLocal(a, b, c, p + 1, AllocEnd(t, 8), e.args);
      SameAt(a, b, p, p + Len(e), p, PushR(q, TempAt(t, U64)));
      SameAt(a, b, p, p + Len(e), q, CallInsn(c, e, t));
    }
  }

  lemma {:induction false} TwoLocal(a: seq<Insn>, b: seq<Insn>, c: Ctx, p: nat, t: nat, e: Expr)
    requires e.Arith? || e.Cmp? || e.Comma? || e.Conj? || e.Disj?
    requires Placed(a, c, p, t, e) && SameCode(a, b, p, p + Len(e))
    ensures Placed(b, c, p, t, e)
    decreases e, 0
  {
    hide *;
    Lengths(e);
    var end := p + Len(e);
    var pr := p + Len(e.l) + if e.Conj? || e.Disj? then 2 else 0;
    SubWindow(a, b, p, end, p, p + Len(e.l));
    SubWindow(a, b, p, end, pr, pr + Len(e.r));
    if e.Comma? {
      CommaPlaced(a, c, p, t, e);
      CommaPlaced(b, c, p, t, e);
      PlacedLocal(a, b, c, p, t, e.l);
      PlacedLocal(a, b, c, pr, t, e.r);
    } else if e.Arith? || e.Cmp? {
      PairPlaced(a, c, p, t, e);
      PairPlaced(b, c, p, t, e);
      var t1 := TempEnd(c, e.l, t);
      PlacedLocal(a, b, c, p, t, e.l);
      PlacedLocal(a, b, c, pr, t1, e.r);
      SameAt(a, b, p, end, pr + Len(e.r),
             if e.Arith? then Bin(e.op, ResOpd(c, e, t), ResOpd(c, e.l, t), ResOpd(c, e.r, t1))
             else CmpI(e.cmp, ResOpd(c, e, t), ResOpd(c, e.l, t), ResOpd(c, e.r, t1)));
    } else {
      ByteWord();
      LogicPlaced(a, c, p, t, e);
      LogicPlaced(b, c, p, t, e);
      var t0 := TempEnd(c, e.l, t);
      PlacedLocal(a, b, c, p, t, e.l);
      PlacedLocal(a, b, c, pr, AllocEnd(t0, 1), e.r);
      SameAt(a, b, p, end, pr - 2, Un(OzOp, TempAt(t0, U8), ResOpd(c, e.l, t)));
      SameAt(a, b, p, end, pr - 1, if e.Conj? then Jz(ResOpd(c, e.l, t), end) else Jnz(ResOpd(c, e.l, t), end));
      SameAt(a, b, p, end, end - 2, Un(OzOp, TempAt(t0, U8), ResOpd(c, e.r, AllocEnd(t0, 1))));
      SameAt(a, b, p, end, end - 1, MaskInsn(e.Conj?, TempAt(t0, U8)));
    }
  }

  lemma ByteWord()
    ensures IsWord(1) && IsWord(8) && U8.Size() == 1 && U64.Size() == 8
  {
  }

  lemma {:induction false} TernLocal(a: seq<Insn>, b: seq<Insn>, c: Ctx, p: nat, t: nat, e: Expr)
    requires e.Tern? && Placed(a, c, p, t, e) && SameCode(a, b, p, p + Len(e))
    ensures Placed(b, c, p, t, e)
    decreases e, 0
  {
    hide *;
    Lengths(e);
    TernPlaced(a, c, p, t, e);
    TernPlaced(b, c, p, t, e);
    var t1, end := TernBase(c, e, t), p + Len(e);
    var pa := p + Len(e.c) + 1;
    var pb := pa + Len(e.t) + 2;
    SubWindow(a, b, p, end, p, p + Len(e.c));
    SubWindow(a, b, p, end, pa, pa + Len(e.t));
    SubWindow(a, b, p, end, pb, pb + Len(e.f));
    PlacedLocal(a, b, c, p, t, e.c);
    PlacedLocal(a, b, c, pa, t1, e.t);
    PlacedLocal(a, b, c, pb, t1, e.f);
    SameAt(a, b, p, end, pa - 1, Jz(ResOpd(c, e.c, t), pb));
    SameAt(a, b, p, end, pb - 2, Mov(ResOpd(c, e, t), ResOpd(c, e.t, t1)));
    SameAt(a, b, p, end, pb - 1, Jmp(end));
    SameAt(a, b, p, end, end - 1, Mov(ResOpd(c, e, t), ResOpd(c, e.f, t1)));
  }

  lemma {:induction false} ArgsLocal(a: seq<Insn>, b: seq<Insn>, c: Ctx, p: nat, t: nat, args: Args)
    requires PlacedArgs(a, c, p, t, args) && SameCode(a, b, p, p + LenArgs(args))
    ensures PlacedArgs(b, c, p, t, args)
    decreases args, 0
  {
    hide *;
    ArgsLength(args);
    NoArgsPlaced(b, c, p, t);
    if args.Arg? {
      ArgPlaced(a, c, p, t, args);
      ArgPlaced(b, c, p, t, args);
      var end, q := p + LenArgs(args), p + Len(args.head);
      SubWindow(a, b, p, end, p, q);
      SubWindow(a, b, p, end, q + 1, end);
      PlacedLocal(a, b, c, p, t, args.head);
      SameAt(a, b, p, end, q, Push(ResOpd(c, args.head, t)));
      ArgsLocal(a, b, c, q + 1, TempEnd(c, args.head, t), args.tail);
    }
  }

  lemma ArgsLength(args: Args)
    ensures args.NoArgs? ==> LenArgs(args) == 0
    ensures args.Arg? ==> LenArgs(args) == Len(args.head) + 1 + LenArgs(args.tail)
  {
  }

  lemma NoArgsPlaced(code: seq<Insn>, c: Ctx, p: nat, t: nat)
    ensures PlacedArgs(code, c, p, t, NoArgs)
  {
  }

  // ---------- statements ----------

  lemma {:induction false} InitLocal(a: seq<Insn>, b: seq<Insn>, c: Ctx, p: nat, names: seq<nat>, src: Opd)
    requires PlacedInit(a, c, p, names, src) && SameCode(a, b, p, p + |names|)
    ensures PlacedInit(b, c, p, names, src)
    decreases |names|
  {
    if names != [] {
      InitLocal(a, b, c, p + 1, names[1..], src);
    }
  }

  lemma {:induction false} PlacedSLocal(a: seq<Insn>, b: seq<Insn>, c: Ctx, p: nat, s: Stmt)
    requires PlacedS(a, c, p, s) && SameCode(a, b, p, p + LenS(s))
    ensures PlacedS(b, c, p, s)
    decreases s, 1
  {
    hide SameCode, Placed, PlacedInit, PlacedAll, PlacedElse, At, ResOpd, Len, LenAll, LenElse;
    var end := p + LenS(s);
    match s
    case Decl(names, init) =>
      if init.Some? {
        var q := p + Len(init.value);
        SubWindow(a, b, p, end, p, q);
        SubWindow(a, b, p, end, q, end);
        PlacedLocal(a, b, c, p, 0, init.value);
        InitLocal(a, b, c, q, names, ResOpd(c, init.value, 0));
      }
    case ExprS(e) =>
      SubWindow(a, b, p, end, p, p + Len(e));
      PlacedLocal(a, b, c, p, 0, e);
      SameAt(a, b, p, end, p + Len(e), Nop);
    case Block(ss) => PlacedAllLocal(a, b, c, p, ss);
    case NoInt(ss) =>
      SubWindow(a, b, p, end, p + 1, end - 1);
      PlacedAllLocal(a, b, c, p + 1, ss);
      SameAt(a, b, p, end, p, NoIntI);
      SameAt(a, b, p, end, end - 1, IntI);
    case If(els) => PlacedElseLocal(a, b, c, p, end, els);
    case While(_, _) => LoopLocal(a, b, c, p, s);
    case DoWhile(_, _) => LoopLocal(a, b, c, p, s);
    case Return(v) =>
      if v.Some? {
        SubWindow(a, b, p, end, p, end - 1);
        PlacedLocal(a, b, c, p, 0, v.value);
        SameAt(a, b, p, end, end - 1, RetV(ResOpd(c, v.value, 0), c.frame + 16));
      } else {
        SameAt(a, b, p, end, p, RetI(c.frame + 16));
      }
    case WLabel(l) => SameAt(a, b, p, end, p, WLab(l));
  }

  lemma {:induction false} LoopLocal(a: seq<Insn>, b: seq<Insn>, c: Ctx, p: nat, s: Stmt)
    requires s.While? || s.DoWhile?
    requires PlacedS(a, c, p, s) && SameCode(a, b, p, p + LenS(s))
    ensures PlacedS(b, c, p, s)
    decreases s, 0
  {
    hide SameCode, Placed, PlacedAll, At, ResOpd, Len, LenAll;
    var end := p + LenS(s);
    if s.While? {
      var pb := p + Len(s.c) + 1;
      SubWindow(a, b, p, end, p, pb - 1);
      SubWindow(a, b, p, end, pb, end - 1);
      PlacedLocal(a, b, c, p, 0, s.c);
      PlacedAllLocal(a, b, c, pb, s.body);
      SameAt(a, b, p, end, pb - 1, Jz(ResOpd(c, s.c, 0), end));
      SameAt(a, b, p, end, end - 1, Jmp(p));
    } else {
      var q := p + LenAll(s.body);
      SubWindow(a, b, p, end, p, q);
      SubWindow(a, b, p, end, q, end - 1);
      PlacedAllLocal(a, b, c, p, s.body);
      PlacedLocal(a, b, c, q, 0, s.c);
      SameAt(a, b, p, end, end - 1, Jnz(ResOpd(c, s.c, 0), p));
    }
  }

  lemma {:induction false} PlacedAllLocal(a: seq<Insn>, b: seq<Insn>, c: Ctx, p: nat, ss: Stmts)
    requires PlacedAll(a, c, p, ss) && SameCode(a, b, p, p + LenAll(ss))
    ensures PlacedAll(b, c, p, ss)
    decreases ss, 0
  {
    hide SameCode, PlacedS, LenS;
    if ss.Cons? {
      var q := p + LenS(ss.head);
      SubWindow(a, b, p, p + LenAll(ss), p, q);
      SubWindow(a, b, p, p + LenAll(ss), q, p + LenAll(ss));
      PlacedSLocal(a, b, c, p, ss.head);
      PlacedAllLocal(a, b, c, q, ss.tail);
    }
  }

  lemma {:induction false} PlacedElseLocal(a: seq<Insn>, b: seq<Insn>, c: Ctx, p: nat, end: nat, els: Else)
    requires PlacedElse(a, c, p, end, els) && SameCode(a, b, p, p + LenElse(els))
    ensures PlacedElse(b, c, p, end, els)
    decreases els, 0
  {
    hide SameCode, Placed, PlacedAll, At, ResOpd, Len, LenAll;
    match els
    case NoElse =>
    case ElseBlock(ss) => PlacedAllLocal(a, b, c, p, ss);
    case Elif(k, ss, rest) =>
      var q, pb := p + LenElse(els), p + Len(k) + 1;
      var pe := pb + LenAll(ss) + 1;
      SubWindow(a, b, p, q, p, pb - 1);
      SubWindow(a, b, p, q, pb, pe - 1);
      SubWindow(a, b, p, q, pe, q);
      PlacedLocal(a, b, c, p, 0, k);
      PlacedAllLocal(a, b, c, pb, ss);
      PlacedElseLocal(a, b, c, pe, end, rest);
      SameAt(a, b, p, q, pb - 1, Jz(ResOpd(c, k, 0), pe));
      SameAt(a, b, p, q, pe - 1, Jmp(end));
  }

  lemma PlacedFLocal(a: seq<Insn>, b: seq<Insn>, c: Ctx, p: nat)
    requires DeclsOk(c.f) && PlacedF(a, c, p) && SameCode(a, b, p, p + LenF(c.f))
    ensures PlacedF(b, c, p)
  {
    hide SameCode, PlacedAll, At, DeclsOk, ArgsSize, PeakAll, LenAll;
    var end := p + LenF(c.f);
    SubWindow(a, b, p, end, p + 1, end - 1);
    PlacedAllLocal(a, b, c, p + 1, c.f.body);
    SameAt(a, b, p, end, p, IncSp(c.frame - ArgsSize(c.f), PeakAll(c, c.f.body)));
    SameAt(a, b, p, end, end - 1, RetI(c.frame + 16));
  }

  // ---------- the relation determines the code ----------

  lemma Join(a: seq<Insn>, b: seq<Insn>, lo: nat, mid: nat, hi: nat)
    requires SameCode(a, b, lo, mid) && SameCode(a, b, mid, hi)
    ensures SameCode(a, b, lo, hi)
  {
  }

  lemma One(a: seq<Insn>, b: seq<Insn>, i: nat, insn: Insn)
    requires At(a, i, insn) && At(b, i, insn)
    ensures SameCode(a, b, i, i + 1)
  {
  }

  lemma Nothing(a: seq<Insn>, b: seq<Insn>, i: nat)
    requires i <= |a| && i <= |b|
    ensures SameCode(a, b, i, i)
  {
  }

  /** Two arrays in which an expression is placed at the same index hold the same instructions for it: the
      relation leaves the generator no choice. */
  lemma {:induction false} PlacedUnique(a: seq<Insn>, b: seq<Insn>, c: Ctx, p: nat, t: nat, e: Expr)
    requires Placed(a, c, p, t, e) && Placed(b, c, p, t, e) && p <= |a| && p <= |b|
    ensures SameCode(a, b, p, p + Len(e))
    decreases e, 1
  {
    hide *;
    Lengths(e);
    PlusPlaced(a, c, p, t, e);
    PlusPlaced(b, c, p, t, e);
    if e.Num? || e.Bool? || e.Name? {
      Nothing(a, b, p);
    } else if e.UPlus? {
      PlacedUnique(a, b, c, p, t, e.e);
    } else if e.Assign? || e.AssignOp? {
      AssignPlaced(a, c, p, t, e);
      AssignPlaced(b, c, p, t, e);
      PlacedUnique(a, b, c, p, t, e.rhs);
      One(a, b, p + Len(e.rhs), if e.Assign? then Mov(VarOpd(c, e.x), ResOpd(c, e.rhs, t))
                                else Bin(e.op, VarOpd(c, e.x), VarOpd(c, e.x), ResOpd(c, e.rhs, t)));
      Join(a, b, p, p + Len(e.rhs), p + Len(e));
    } else if e.Cast? || e.UMinus? || e.LNot? || e.BNot? {
      UnaryPlaced(a, c, p, t, e);
      UnaryPlaced(b, c, p, t, e);
      PlacedUnique(a, b, c, p, t, e.e);
      One(a, b, p + Len(e.e), UnaryInsn(e, ResOpd(c, e, t), ResOpd(c, e.e, t)));
      Join(a, b, p, p + Len(e.e), p + Len(e));
    } else if e.Arith? || e.Cmp? || e.Comma? || e.Conj? || e.Disj? {
      TwoUnique(a, b, c, p, t, e);
    } else if e.PreInc? || e.PostInc? {
      BumpPlaced(a, c, p, t, e);
      BumpPlaced(b, c, p, t, e);
      One(a, b, p, if e.PreInc? then IncDec(e.up, VarOpd(c, e.x)) else IncDecP(e.up, ResOpd(c, e, t), VarOpd(c, e.x)));
    } else if e.Tern? {
      TernUnique(a, b, c, p, t, e);
    } else if e.Call? {
      CallPlaced(a, c, p, t, e);
      CallPlaced(b, c, p, t, e);
      var q := p + 1 + LenArgs(e.args);
      One(a, b, p, PushR(q, TempAt(t, U64)));
      AtInside(a, b, p, PushR(q, TempAt(t, U64)));
      ArgsUnique(a, b, c, p + 1, AllocEnd(t, 8), e.args);
      One(a, b, q, CallInsn(c, e, t));
      Join(a, b, p, p + 1, q);
      Join(a, b, p, q, q + 1);
    }
  }

  lemma AtInside(a: seq<Insn>, b: seq<Insn>, i: nat, insn: Insn)
    requires At(a, i, insn) && At(b, i, insn)
    ensures i + 1 <= |a| && i + 1 <= |b|
  {
  }

  lemma SameInside(a: seq<Insn>, b: seq<Insn>, lo: nat, hi: nat)
    requires SameCode(a, b, lo, hi)
    ensures hi <= |a| && hi <= |b|
  {
  }

  lemma {:induction false} TwoUnique(a: seq<Insn>, b: seq<Insn>, c: Ctx, p: nat, t: nat, e: Expr)
    requires e.Arith? || e.Cmp? || e.Comma? || e.Conj? || e.Disj?
    requires Placed(a, c, p, t, e) && Placed(b, c, p, t, e) && p <= |a| && p <= |b|
    ensures SameCode(a, b, p, p + Len(e))
    decreases e, 0
  {
    hide *;
    Lengths(e);
    var end, pr := p + Len(e), p + Len(e.l);
    if e.Comma? {
      CommaPlaced(a, c, p, t, e);
      CommaPlaced(b, c, p, t, e);
      PlacedUnique(a, b, c, p, t, e.l);
      SameInside(a, b, p, pr);
      PlacedUnique(a, b, c, pr, t, e.r);
      Join(a, b, p, pr, end);
    } else if e.Arith? || e.Cmp? {
      PairPlaced(a, c, p, t, e);
      PairPlaced(b, c, p, t, e);
      var t1 := TempEnd(c, e.l, t);
      PlacedUnique(a, b, c, p, t, e.l);
      SameInside(a, b, p, pr);
      PlacedUnique(a, b, c, pr, t1, e.r);
      One(a, b, pr + Len(e.r),
          if e.Arith? then Bin(e.op, ResOpd(c, e, t), ResOpd(c, e.l, t), ResOpd(c, e.r, t1))
          else CmpI(e.cmp, ResOpd(c, e, t), ResOpd(c, e.l, t), ResOpd(c, e.r, t1)));
      Join(a, b, p, pr, end - 1);
      Join(a, b, p, end - 1, end);
    } else {
      ByteWord();
      LogicPlaced(a, c, p, t, e);
      LogicPlaced(b, c, p, t, e);
      var t0 := TempEnd(c, e.l, t);
      PlacedUnique(a, b, c, p, t, e.l);
      One(a, b, pr, Un(OzOp, TempAt(t0, U8), ResOpd(c, e.l, t)));
      var jump := if e.Conj? then Jz(ResOpd(c, e.l, t), end) else Jnz(ResOpd(c, e.l, t), end);
      One(a, b, pr + 1, jump);
      AtInside(a, b, pr + 1, jump);
      PlacedUnique(a, b, c, pr + 2, AllocEnd(t0, 1), e.r);
      One(a, b, end - 2, Un(OzOp, TempAt(t0, U8), ResOpd(c, e.r, AllocEnd(t0, 1))));
      One(a, b, end - 1, MaskInsn(e.Conj?, TempAt(t0, U8)));
      Join(a, b, p, pr, pr + 1);
      Join(a, b, p, pr + 1, pr + 2);
      Join(a, b, p, pr + 2, end - 2);
      Join(a, b, p, end - 2, end - 1);
      Join(a, b, p, end - 1, end);
    }
  }

  lemma {:induction false} TernUnique(a: seq<Insn>, b: seq<Insn>, c: Ctx, p: nat, t: nat, e: Expr)
    requires e.Tern? && Placed(a, c, p, t, e) && Placed(b, c, p, t, e) && p <= |a| && p <= |b|
    ensures SameCode(a, b, p, p + Len(e))
    decreases e, 0
  {
    hide *;
    Lengths(e);
    TernPlaced(a, c, p, t, e);
    TernPlaced(b, c, p, t, e);
    var t1, end := TernBase(c, e, t), p + Len(e);
    var pa := p + Len(e.c) + 1;
    var pb := pa + Len(e.t) + 2;
    PlacedUnique(a, b, c, p, t, e.c);
    One(a, b, pa - 1, Jz(ResOpd(c, e.c, t), pb));
    AtInside(a, b, pa - 1, Jz(ResOpd(c, e.c, t), pb));
    PlacedUnique(a, b, c, pa, t1, e.t);
    One(a, b, pb - 2, Mov(ResOpd(c, e, t), ResOpd(c, e.t, t1)));
    One(a, b, pb - 1, Jmp(end));
    AtInside(a, b, pb - 1, Jmp(end));
    PlacedUnique(a, b, c, pb, t1, e.f);
    One(a, b, end - 1, Mov(ResOpd(c, e, t), ResOpd(c, e.f, t1)));
    Join(a, b, p, pa - 1, pa);
    Join(a, b, p, pa, pb - 2);
    Join(a, b, p, pb - 2, pb - 1);
    Join(a, b, p, pb - 1, pb);
    Join(a, b, p, pb, end - 1);
    Join(a, b, p, end - 1, end);
  }

  lemma {:induction false} ArgsUnique(a: seq<Insn>, b: seq<Insn>, c: Ctx, p: nat, t: nat, args: Args)
    requires PlacedArgs(a, c, p, t, args) && PlacedArgs(b, c, p, t, args) && p <= |a| && p <= |b|
    ensures SameCode(a, b, p, p + LenArgs(args))
    decreases args, 0
  {
    hide *;
    ArgsLength(args);
    if args.NoArgs? {
      Nothing(a, b, p);
    } else {
      ArgPlaced(a, c, p, t, args);
      ArgPlaced(b, c, p, t, args);
      var end, q := p + LenArgs(args), p + Len(args.head);
      PlacedUnique(a, b, c, p, t, args.head);
      One(a, b, q, Push(ResOpd(c, args.head, t)));
      AtInside(a, b, q, Push(ResOpd(c, args.head, t)));
      ArgsUnique(a, b, c, q + 1, TempEnd(c, args.head, t), args.tail);
      Join(a, b, p, q, q + 1);
      Join(a, b, p, q + 1, end);
    }
  }
}
