/** The code generator as the imperative program it is: one growing instruction array written and back-patched
    in place, a bump allocator for temporaries, and a function's layout filled in by nested loops. */
module CodeGenerator {
  import opened Options
  import opened Words
  import opened Ast
  import opened Layout
  import opened Insn
  import opened Codegen
  import opened Shapes
  import opened Window
  import opened Emission
  import opened EmissionStmts

  /** struct func_tag */
  class FuncTag {
    var layout: map<nat, Slot>
    var frameSize: nat
    var argsSize: nat

    ghost function Lay(): Layout.Lay
      reads this
    {
      Layout.Lay(frameSize, layout)
    }

    constructor ()
      ensures Lay() == Layout.Lay(0, map[])
    {
      layout, frameSize, argsSize := map[], 0, 0;
    }

    /** create_frame_layout on a function. */
    method LayOut(f: Func)
      requires DeclsOk(f) && Lay() == Layout.Lay(0, map[])
      modifies this
      ensures Lay() == FrameLay(f) && argsSize == ArgsSize(f)
    {
      var i := 0;
      while i < f.params
        invariant 0 <= i <= f.params && LayParams(f, i, Lay()) == LayParams(f, 0, Layout.Lay(0, map[]))
      {
        layout := layout[i := Slot(frameSize, f.vars[i].size)];
        frameSize := AlignUp(frameSize + f.vars[i].size, 8);
        i := i + 1;
      }
      argsSize := frameSize;
      LayStmts(f, f.body);
      frameSize := AlignUp(frameSize, 8);
    }

    /** create_frame_layout's loop over the statements of a function, block or loop. */
    method LayStmts(f: Func, ss: Stmts)
      requires Placeable(f, DeclIdsOf(ss))
      modifies this`layout, this`frameSize
      ensures Lay() == LayVars(f, DeclIdsOf(ss), old(Lay()))
      decreases ss, 1
    {
      var rest := ss;
      while rest.Cons?
        invariant rest == ss || rest < ss
        invariant Placeable(f, DeclIdsOf(rest))
        invariant LayVars(f, DeclIdsOf(rest), Lay()) == LayVars(f, DeclIdsOf(ss), old(Lay()))
        decreases rest
      {
        ghost var before := Lay();
        PlaceableParts(f, DeclIds(rest.head), DeclIdsOf(rest.tail));
        LayVarsConcat(f, DeclIds(rest.head), DeclIdsOf(rest.tail), before);
        LayStmt(f, rest.head);
        rest := rest.tail;
      }
    }

    method LayStmt(f: Func, s: Stmt)
      requires Placeable(f, DeclIds(s))
      modifies this`layout, this`frameSize
      ensures Lay() == LayVars(f, DeclIds(s), old(Lay()))
      decreases s, 2
    {
      match s {
        case Decl(names, _) =>
          var i := 0;
          while i < |names|
            invariant 0 <= i <= |names| && Placeable(f, names[i..])
            invariant LayVars(f, names[i..], Lay()) == LayVars(f, names, old(Lay()))
          {
            var x := names[i];
            assert names[i..][0] == x && names[i..][1..] == names[i + 1..];
            frameSize := AlignUp(frameSize, f.vars[x].align);
            layout := layout[x := Slot(frameSize, f.vars[x].size)];
            frameSize := frameSize + f.vars[x].size;
            i := i + 1;
          }
        case Block(b) => LayStmts(f, b);
        case NoInt(b) => LayStmts(f, b);
        case If(els) => LayBranches(f, els);
        case While(_, b) => LayStmts(f, b);
        case DoWhile(b, _) => LayStmts(f, b);
        case _ =>
      }
    }

    method LayBranches(f: Func, els: Else)
      requires Placeable(f, DeclIdsElse(els))
      modifies this`layout, this`frameSize
      ensures Lay() == LayVars(f, DeclIdsElse(els), old(Lay()))
      decreases els, 1
    {
      var rest := els;
      while rest.Elif?
        invariant rest == els || rest < els
        invariant Placeable(f, DeclIdsElse(rest))
        invariant LayVars(f, DeclIdsElse(rest), Lay()) == LayVars(f, DeclIdsElse(els), old(Lay()))
        decreases rest
      {
        PlaceableParts(f, DeclIdsOf(rest.body), DeclIdsElse(rest.els));
        LayVarsConcat(f, DeclIdsOf(rest.body), DeclIdsElse(rest.els), Lay());
        LayStmts(f, rest.body);
        rest := rest.els;
      }
      if rest.ElseBlock? {
        LayStmts(f, rest.body);
      }
    }
  }

  lemma PlaceableParts(f: Func, xs: seq<nat>, ys: seq<nat>)
    requires Placeable(f, xs + ys)
    ensures Placeable(f, xs) && Placeable(f, ys)
  {
    forall k | 0 <= k < |xs| ensures xs[k] < |f.vars| && AlignOk(f.vars[xs[k]].align) {
      assert xs[k] == (xs + ys)[k];
    }
    forall k | 0 <= k < |ys| ensures ys[k] < |f.vars| && AlignOk(f.vars[ys[k]].align) {
      assert ys[k] == (xs + ys)[|xs| + k];
    }
  }

  /** The generator: `o->insns` up to `ip`, `temp_off` and `temp_off_peak`. */
  class Generator {
    var insns: seq<Insn>
    var tempOff: nat
    var tempPeak: nat

    ghost function State(): Gen
      reads this
    {
      Gen(insns, tempOff, tempPeak)
    }

    ghost predicate Valid()
      reads this
    {
      tempOff <= tempPeak
    }

    constructor ()
      ensures Valid() && State() == Gen([], 0, 0)
    {
      insns, tempOff, tempPeak := [], 0, 0;
    }

    method Emit(insn: Insn)
      modifies this`insns
      ensures State() == Emitted(old(State()), insn)
    {
      insns := insns + [insn];
    }

    method Patch(at: nat, insn: Insn)
      requires at < |insns|
      modifies this`insns
      ensures insns == old(insns)[at := insn]
    {
      insns := insns[at := insn];
    }

    /** OPD_TEMP */
    method Temporary(ty: Ty) returns (o: Opd)
      modifies this`tempOff, this`tempPeak
      ensures State() == Allocated(old(State()), ty.Size()) && o == TempAt(old(tempOff), ty) && Valid()
    {
      tempOff := AlignUp(tempOff, ty.Size());
      o := Temp(ty.Signed(), tempOff, ty.Size());
      tempOff := tempOff + ty.Size();
      if tempOff > tempPeak {
        tempPeak := tempOff;
      }
    }

    method GenExpr(c: Ctx, e: Expr) returns (res: Opd)
      requires Valid() && Checked(c, e)
      modifies this
      ensures Valid() && Gained(c, e, old(State()), State(), res)
      decreases e, 1
    {
      hide Gained, Checked, VarOpd, TempEnd, Peak, ResOpd, Placed, Len;
      CheckedParts(c, e);
      ghost var g0 := State();
      match e {
        case Num(v) =>
          res := Imm(false, v, NumTy(v).Size());
          AtomGained(c, e, g0);
        case Bool(b) =>
          res := Imm(false, if b then 1 else 0, 1);
          AtomGained(c, e, g0);
        case Name(x) =>
          res := VarOpd(c, x);
          AtomGained(c, e, g0);
        case UPlus(a) =>
          res := GenExpr(c, a);
          UPlusGained(c, e, g0, State(), res);
        case Assign(_, _) => res := GenAssign(c, e);
        case AssignOp(_, _, _) => res := GenAssign(c, e);
        case Arith(_, _, _) => res := GenPair(c, e);
        case Cmp(_, _, _) => res := GenPair(c, e);
        case Conj(_, _) => res := GenLogic(c, e);
        case Disj(_, _) => res := GenLogic(c, e);
        case Comma(_, _) => res := GenComma(c, e);
        case PreInc(_, _) => res := GenBump(c, e);
        case PostInc(_, _) => res := GenBump(c, e);
        case Tern(_, _, _) => res := GenTern(c, e);
        case Call(_, _) => res := GenCall(c, e);
        case _ => res := GenUnary(c, e);
      }
      GainedParts(c, e, g0, State(), res);
    }

    /** gen_bexp_assn, gen_bexp_asmu and the assigning half of gen_bexp_plus, which allocates a temporary it
        does not use. */
    method GenAssign(c: Ctx, e: Expr) returns (res: Opd)
      requires Valid() && Checked(c, e) && (e.Assign? || e.AssignOp?)
      modifies this
      ensures Gained(c, e, old(State()), State(), res)
      decreases e, 0
    {
      hide Gained, Checked, VarOpd;
      CheckedParts(c, e);
      ghost var g0 := State();
      res := VarOpd(c, e.x);
      var src := GenExpr(c, e.rhs);
      ghost var g1 := State();
      if e.AssignOp? && AllocatesUnused(e.op) {
        var _ := Temporary(VarTy(c, e.x));
      }
      Emit(if e.Assign? then Mov(res, src) else Bin(e.op, res, res, src));
      AssignGained(c, e, g0, g1, State(), src);
    }

    method GenUnary(c: Ctx, e: Expr) returns (res: Opd)
      requires Valid() && Checked(c, e) && (e.Cast? || e.UMinus? || e.LNot? || e.BNot?)
      modifies this
      ensures Gained(c, e, old(State()), State(), res)
      decreases e, 0
    {
      hide Gained, Checked, ValTy;
      CheckedParts(c, e);
      ghost var g0 := State();
      var src := GenExpr(c, e.e);
      ghost var g1 := State();
      res := Temporary(if e.Cast? then e.to else ValTy(c, e));
      Emit(UnaryInsn(e, res, src));
      UnaryGained(c, e, g0, g1, State(), src);
    }

    /** gen_bexp_equl, and gen_bexp_plus without assignment. */
    method GenPair(c: Ctx, e: Expr) returns (res: Opd)
      requires Valid() && Checked(c, e) && (e.Arith? || e.Cmp?)
      modifies this
      ensures Gained(c, e, old(State()), State(), res)
      decreases e, 0
    {
      hide Gained, Checked, ValTy;
      CheckedParts(c, e);
      ghost var g0 := State();
      var l := GenExpr(c, e.l);
      ghost var g1 := State();
      var r := GenExpr(c, e.r);
      ghost var g2 := State();
      res := Temporary(if e.Cmp? then U8 else ValTy(c, e));
      Emit(PairInsn(e, res, l, r));
      PairGained(c, e, g0, g1, g2, State(), l, r);
    }

    /** gen_bexp_conj and gen_bexp_disj */
    method GenLogic(c: Ctx, e: Expr) returns (res: Opd)
      requires Valid() && Checked(c, e) && (e.Conj? || e.Disj?)
      modifies this
      ensures Gained(c, e, old(State()), State(), res)
      decreases e, 0
    {
      hide Gained, Checked, TempAt, AllocEnd, MaskInsn, Placed, TempEnd, Peak, ResOpd, Len;
      CheckedParts(c, e);
      ByteWord();
      ghost var g0 := State();
      var l := GenExpr(c, e.l);
      ghost var g1 := State();
      res := Temporary(U8);
      Emit(Un(OzOp, res, l));
      var jump := |insns|;
      Emit(if e.Conj? then Jz(l, 0) else Jnz(l, 0));
      assert State() == LogicHead(e, g1, l);
      var r := GenExpr(c, e.r);
      ghost var g3 := State();
      GainedParts(c, e.r, LogicHead(e, g1, l), g3, r);
      Emit(Un(OzOp, res, r));
      Emit(MaskInsn(e.Conj?, res));
      assert State() == LogicTail(e, g3, res, r);
      Patch(jump, if e.Conj? then Jz(l, |insns|) else Jnz(l, |insns|));
      LogicGained(c, e, g0, g1, g3, State(), l, r);
    }

    /** gen_bexp_coma: the left operand's temporaries are released. */
    method GenComma(c: Ctx, e: Expr) returns (res: Opd)
      requires Valid() && Checked(c, e) && e.Comma?
      modifies this
      ensures Gained(c, e, old(State()), State(), res)
      decreases e, 0
    {
      hide Gained, Checked, Placed, TempEnd, Peak, ResOpd, Len;
      CheckedParts(c, e);
      ghost var g0 := State();
      var saved := tempOff;
      var l := GenExpr(c, e.l);
      ghost var g1 := State();
      GainedParts(c, e.l, g0, g1, l);
      tempOff := saved;
      assert State() == g1.(off := g0.off);
      res := GenExpr(c, e.r);
      CommaGained(c, e, g0, g1, State(), l, res);
    }

    /** gen_uexp_incr and gen_xexp_incr */
    method GenBump(c: Ctx, e: Expr) returns (res: Opd)
      requires Valid() && (e.PreInc? || e.PostInc?)
      modifies this
      ensures Gained(c, e, old(State()), State(), res)
      decreases e, 0
    {
      hide Gained, VarOpd, TempAt, AllocEnd;
      ghost var g0 := State();
      var x := VarOpd(c, e.x);
      if e.PreInc? {
        res := x;
        Emit(IncDec(e.up, x));
      } else {
        res := Temporary(VarTy(c, e.x));
        Emit(IncDecP(e.up, res, x));
      }
      BumpGained(c, e, g0, State());
    }

    /** gen_texp: the branches share the result's temporary and reuse each other's. */
    method GenTern(c: Ctx, e: Expr) returns (res: Opd)
      requires Valid() && Checked(c, e) && e.Tern?
      modifies this
      ensures Gained(c, e, old(State()), State(), res)
      decreases e, 0
    {
      hide Gained, Checked, TempAt, AllocEnd, ValTy, Placed, TempEnd, Peak, ResOpd, Len;
      CheckedParts(c, e);
      ghost var g0 := State();
      var k := GenExpr(c, e.c);
      ghost var g1 := State();
      res := Temporary(ValTy(c, e));
      var jz := |insns|;
      Emit(Jz(k, 0));
      ghost var g2 := TernHead(c, e, g1, k);
      assert State() == g2;
      var saved := tempOff;
      var a := GenExpr(c, e.t);
      ghost var g3 := State();
      GainedParts(c, e.t, g2, g3, a);
      Emit(Mov(res, a));
      var jmp := |insns|;
      Emit(Jmp(0));
      Patch(jz, Jz(k, |insns|));
      tempOff := saved;
      ghost var g4 := State();
      assert g4 == TernMiddle(g1, g2, g3, k, res, a);
      var b := GenExpr(c, e.f);
      ghost var g5 := State();
      GainedParts(c, e.f, g4, g5, b);
      Emit(Mov(res, b));
      Patch(jmp, Jmp(|insns|));
      TernGained(c, e, g0, g1, g3, g5, State(), k, a, b);
    }

    /** gen_fexp: PUSHR gets its return address when the call's index is known. */
    method GenCall(c: Ctx, e: Expr) returns (res: Opd)
      requires Valid() && Checked(c, e) && e.Call?
      modifies this
      ensures Gained(c, e, old(State()), State(), res)
      decreases e, 0
    {
      hide Gained, GainedArgs, Checked, TempAt, AllocEnd, ValTy, HasValue, PlacedArgs, TempEndArgs, PeakArgs, LenArgs;
      CheckedParts(c, e);
      ByteWord();
      ghost var g0 := State();
      var ssp := Temporary(U64);
      var pushr := |insns|;
      Emit(PushR(0, ssp));
      ghost var h := State();
      GenArgs(c, e.args);
      ghost var g1 := State();
      GainedArgsParts(c, e.args, h, g1);
      var call := |insns|;
      Patch(pushr, PushR(call, ssp));
      if HasValue(c, e) {
        res := Temporary(ValTy(c, e));
        Emit(CallV(res, c.fns[e.g], ssp));
      } else {
        res := Imm(false, 0, 0);
        Emit(CallI(c.fns[e.g], ssp));
      }
      CallGained(c, e, g0, g1, State(), res);
    }

    method GenArgs(c: Ctx, args: Args)
      requires Valid() && CheckedArgs(c, args)
      modifies this
      ensures Valid() && GainedArgs(c, args, old(State()), State())
      decreases args, 2
    {
      hide Gained, Checked, GainedArgs, ArgsSoFar;
      ghost var g0 := State();
      var rest := args;
      ArgsStart(c, args, g0);
      while rest.Arg?
        invariant rest == args || rest < args
        invariant Valid() && CheckedArgs(c, rest) && ArgsSoFar(c, args, g0, rest, State())
        decreases rest
      {
        ghost var g := State();
        var res := GenExpr(c, rest.head);
        ghost var g1 := State();
        Emit(Push(res));
        ArgsStep(c, args, g0, rest, g, g1, res);
        rest := rest.tail;
      }
      ArgsEnd(c, args, g0, State());
    }

    method GenStmt(c: Ctx, s: Stmt)
      requires Valid() && tempOff == 0 && CheckedS(c, s)
      modifies this
      ensures Valid() && tempOff == 0 && GainedS(c, s, old(State()), State())
      decreases s, 1
    {
      hide GainedS, GainedAll, Gained, CheckedS, CheckedAll, Checked, PlacedS, LenS, PeakS;
      CheckedSParts(c, s);
      ghost var g0 := State();
      match s {
        case Decl(_, _) => GenDecl(c, s);
        case ExprS(e) =>
          var unused := GenExpr(c, e);
          ghost var g1 := State();
          Emit(Nop);
          tempOff := 0;
          ExprSGained(c, s, g0, g1, unused);
        case Block(b) =>
          GenAll(c, b);
          BlockGained(c, s, g0, State());
        case NoInt(b) =>
          Emit(NoIntI);
          GenAll(c, b);
          ghost var g1 := State();
          Emit(IntI);
          NoIntGained(c, s, g0, g1);
        case If(_) => GenIf(c, s);
        case While(_, _) => GenWhile(c, s);
        case DoWhile(b, k) =>
          var top := |insns|;
          GenAll(c, b);
          ghost var g1 := State();
          var cond := GenExpr(c, k);
          ghost var g2 := State();
          Emit(Jnz(cond, top));
          tempOff := 0;
          DoWhileGained(c, s, g0, g1, g2, cond);
        case Return(v) =>
          var src := Imm(false, 0, 0);
          if v.Some? {
            src := GenExpr(c, v.value);
          }
          ghost var g1 := State();
          Emit(if v.Some? then RetV(src, c.frame + 16) else RetI(c.frame + 16));
          tempOff := 0;
          ReturnGained(c, s, g0, g1, src);
        case WLabel(l) =>
          Emit(WLab(l));
          WLabelGained(c, s, g0);
      }
      GainedSParts(c, s, g0, State());
    }

    /** gen_decl_auto: one MOV per name from the initialiser's operand. */
    method GenDecl(c: Ctx, s: Stmt)
      requires Valid() && tempOff == 0 && CheckedS(c, s) && s.Decl?
      modifies this
      ensures GainedS(c, s, old(State()), State())
      decreases s, 0
    {
      hide GainedS, Gained, Checked, CheckedS, VarOpd;
      CheckedSParts(c, s);
      ghost var g0 := State();
      if s.init.None? {
        NoInitGained(c, s, g0);
        return;
      }
      var src := GenExpr(c, s.init.value);
      ghost var g1 := State();
      var i := 0;
      while i < |s.names|
        invariant 0 <= i <= |s.names| && g1.insns <= insns && |insns| == |g1.insns| + i
        invariant tempOff == g1.off && tempPeak == g1.peak
        invariant forall k :: 0 <= k < i ==> insns[|g1.insns| + k] == Mov(VarOpd(c, s.names[k]), src)
      {
        Emit(Mov(VarOpd(c, s.names[i]), src));
        i := i + 1;
      }
      tempOff := 0;
      DeclGained(c, s, g0, g1, State(), src);
    }

    /** gen_whil: the exit jump is patched when the end is known. */
    method GenWhile(c: Ctx, s: Stmt)
      requires Valid() && tempOff == 0 && CheckedS(c, s) && s.While?
      modifies this
      ensures GainedS(c, s, old(State()), State())
      decreases s, 0
    {
      hide GainedS, GainedAll, Gained, Checked, CheckedS, CheckedAll, PlacedAll, LenAll, PeakAll;
      CheckedSParts(c, s);
      ghost var g0 := State();
      var top := |insns|;
      var cond := GenExpr(c, s.c);
      ghost var g1 := State();
      var jz := |insns|;
      Emit(Jz(cond, 0));
      tempOff := 0;
      ghost var g2 := State();
      GenAll(c, s.body);
      ghost var g3 := State();
      GainedAllParts(c, s.body, g2, g3);
      Emit(Jmp(top));
      Patch(jz, Jz(cond, |insns|));
      WhileGained(c, s, g0, g1, g3, cond);
    }

    /** gen_cond: a failed condition jumps to the next branch; every taken block jumps to the end, which is
        known only after the last branch. */
    method GenIf(c: Ctx, s: Stmt)
      requires Valid() && tempOff == 0 && CheckedS(c, s) && s.If?
      modifies this
      ensures GainedS(c, s, old(State()), State())
      decreases s, 0
    {
      hide GainedS, GainedAll, Gained, Checked, CheckedS, CheckedAll, PlacedAll, LenAll, PeakAll, PlacedElse, LenElse, PeakElse, ElseSoFar, CheckedElse, TempEnd, Peak, ResOpd, Len, Placed;
      CheckedSParts(c, s);
      ghost var g0 := State();
      var ends: seq<nat> := [];
      var rest := s.branches;
      ElseStart(c, s.branches, g0);
      while rest.Elif?
        invariant rest == s.branches || rest < s.branches
        invariant Valid() && CheckedElse(c, rest) && ElseSoFar(c, s.branches, g0, rest, State(), ends) && tempOff == 0
        decreases rest
      {
        CheckedElseParts(c, rest);
        ghost var g := State();
        var cond := GenExpr(c, rest.c);
        ghost var g1 := State();
        GainedParts(c, rest.c, g, g1, cond);
        var jz := |insns|;
        Emit(Jz(cond, 0));
        tempOff := 0;
        ghost var g2 := State();
        GenAll(c, rest.body);
        ghost var g3 := State();
        GainedAllParts(c, rest.body, g2, g3);
        ghost var ends0 := ends;
        ends := ends + [|insns|];
        Emit(Jmp(0));
        Patch(jz, Jz(cond, |insns|));
        assert State() == Branch(g1, g3, cond);
        ElseStep(c, s.branches, g0, rest, g, ends0, g1, g3, cond);
        rest := rest.els;
      }
      CheckedElseParts(c, rest);
      ghost var g := State();
      if rest.ElseBlock? {
        GenAll(c, rest.body);
        GainedAllParts(c, rest.body, g, State());
      }
      ghost var g1 := State();
      EndsInside(c, s.branches, g0, rest, g, ends);
      var end := |insns|;
      var i := 0;
      while i < |ends|
        invariant 0 <= i <= |ends| && |insns| == end && tempOff == g1.off && tempPeak == g1.peak
        invariant Aimed(g1.insns, insns, ends[..i], end)
      {
        ghost var was := insns;
        Patch(ends[i], Jmp(end));
        assert ends[..i + 1] == ends[..i] + [ends[i]];
        i := i + 1;
      }
      assert ends[..i] == ends;
      ElseTail(c, s.branches, g0, rest, g, ends, g1, insns);
      IfGained(c, s, g0, State());
    }

    method GenAll(c: Ctx, ss: Stmts)
      requires Valid() && tempOff == 0 && CheckedAll(c, ss)
      modifies this
      ensures Valid() && tempOff == 0 && GainedAll(c, ss, old(State()), State())
      decreases ss, 2
    {
      hide GainedS, GainedAll, AllSoFar, CheckedS, CheckedAll;
      ghost var g0 := State();
      var rest := ss;
      AllStart(c, ss, g0);
      while rest.Cons?
        invariant rest == ss || rest < ss
        invariant Valid() && CheckedAll(c, rest) && AllSoFar(c, ss, g0, rest, State()) && tempOff == 0
        decreases rest
      {
        CheckedAllParts(c, rest);
        ghost var g := State();
        GenStmt(c, rest.head);
        AllStep(c, ss, g0, rest, g, State());
        rest := rest.tail;
      }
      AllEnd(c, ss, g0, State());
    }

    /** gen_func: INCSP's temporary area is patched in once the body's peak is known. */
    method GenFunc(c: Ctx)
      requires tempOff == 0 && DeclsOk(c.f) && ArgsSize(c.f) <= c.frame && CheckedAll(c, c.f.body)
      modifies this
      ensures Valid() && tempOff == 0 && old(insns) <= insns && |insns| == |old(insns)| + LenF(c.f)
      ensures PlacedF(insns, c, |old(insns)|)
    {
      hide GainedAll, PlacedF, PlacedAll, LenAll, PeakAll, CheckedAll, DeclsOk, ArgsSize;
      tempPeak := 0;
      ghost var g0 := State();
      var incsp := |insns|;
      Emit(IncSp(c.frame - ArgsSize(c.f), 0));
      ghost var g := State();
      GenAll(c, c.f.body);
      ghost var g1 := State();
      GainedAllParts(c, c.f.body, g, g1);
      Patch(incsp, IncSp(c.frame - ArgsSize(c.f), tempPeak));
      Emit(RetI(c.frame + 16));
      FuncGained(c, g0, g1, insns);
    }
  }

  // ---------- the generator runs on checked programs only ----------

  predicate Checked(c: Ctx, e: Expr) {
    |c.fns| == |c.p| && !TypeOf(c.p, c.f, e).TErr?
  }

  predicate CheckedArgs(c: Ctx, args: Args)
    decreases args
  {
    args.Arg? ==> Checked(c, args.head) && CheckedArgs(c, args.tail)
  }

  predicate CheckedS(c: Ctx, s: Stmt) {
    |c.fns| == |c.p| && StmtOk(c.p, c.f, s)
  }

  predicate CheckedAll(c: Ctx, ss: Stmts) {
    |c.fns| == |c.p| && StmtsOk(c.p, c.f, ss)
  }

  predicate CheckedElse(c: Ctx, els: Else) {
    |c.fns| == |c.p| && ElseOk(c.p, c.f, els)
  }

  lemma {:induction false} ArgsChecked(c: Ctx, args: Args, g: Func, i: nat)
    requires |c.fns| == |c.p| && ArgsOk(c.p, c.f, args, g, i)
    ensures CheckedArgs(c, args)
    decreases args
  {
    hide TypeOf;
    if args.Arg? {
      ArgsChecked(c, args.tail, g, i + 1);
    }
  }

  /** A checked expression has checked parts, and calls functions of the program. */
  lemma CheckedParts(c: Ctx, e: Expr)
    requires Checked(c, e)
    ensures e.Assign? || e.AssignOp? ==> Checked(c, e.rhs)
    ensures e.Arith? || e.Cmp? || e.Conj? || e.Disj? || e.Comma? ==> Checked(c, e.l) && Checked(c, e.r)
    ensures e.Cast? || e.UPlus? || e.UMinus? || e.LNot? || e.BNot? ==> Checked(c, e.e)
    ensures e.Tern? ==> Checked(c, e.c) && Checked(c, e.t) && Checked(c, e.f)
    ensures e.Call? ==> e.g < |c.fns| && CheckedArgs(c, e.args)
  {
    hide ArgsOk;
    if e.Call? {
      ArgsChecked(c, e.args, c.p[e.g], 0);
    }
  }

  lemma CheckedSParts(c: Ctx, s: Stmt)
    requires CheckedS(c, s)
    ensures s.Decl? && s.init.Some? ==> Checked(c, s.init.value)
    ensures s.ExprS? ==> Checked(c, s.e)
    ensures s.Block? || s.NoInt? ==> CheckedAll(c, s.body)
    ensures s.If? ==> CheckedElse(c, s.branches)
    ensures s.While? || s.DoWhile? ==> Checked(c, s.c) && CheckedAll(c, s.body)
    ensures s.Return? && s.val.Some? ==> Checked(c, s.val.value)
  {
    hide TypeOf;
  }

  lemma CheckedAllParts(c: Ctx, ss: Stmts)
    requires CheckedAll(c, ss)
    ensures ss.Cons? ==> CheckedS(c, ss.head) && CheckedAll(c, ss.tail)
  {
    hide StmtOk;
  }

  lemma CheckedElseParts(c: Ctx, els: Else)
    requires CheckedElse(c, els)
    ensures els.Elif? ==> Checked(c, els.c) && CheckedElse(c, els.els)
    ensures !els.NoElse? ==> CheckedAll(c, els.body)
  {
    hide TypeOf;
  }

  lemma NoInitGained(c: Ctx, s: Stmt, g: Gen)
    requires s.Decl? && s.init.None? && g.off == 0
    ensures GainedS(c, s, g, g)
  {
  }

  lemma WLabelGained(c: Ctx, s: Stmt, g: Gen)
    requires s.WLabel? && g.off == 0
    ensures GainedS(c, s, g, Emitted(g, WLab(s.lab)))
  {
  }

  lemma EndsInside(c: Ctx, els: Else, g0: Gen, rest: Else, g: Gen, ends: seq<nat>)
    requires ElseSoFar(c, els, g0, rest, g, ends)
    ensures forall k :: 0 <= k < |ends| ==> ends[k] < |g.insns|
  {
  }
}
