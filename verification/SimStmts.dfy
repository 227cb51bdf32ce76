/** Statements, function bodies and the return to the caller: the pieces of the simulation. */
module SimStmts {
  import opened Options
  import opened Bytes
  import opened Words
  import opened Ast
  import opened Layout
  import opened Insn
  import opened Machine
  import opened Codegen
  import opened Source
  import opened SimBase
  import opened SimSteps
  import opened SimGlue
  import opened SimCalls

  /** The machine stands at a return instruction of the function that delivers v. */
  ghost predicate AtReturn(m: Image, c: Ctx, l: Local, v: Option<int>) {
    && l.ip < |m.code|
    && if v.None? then c.f.ret.None? && m.code[l.ip] == RetI(c.frame + 16)
       else
         && c.f.ret.Some? && c.f.ret.value.Holds(v.value)
         && m.code[l.ip].RetV? && m.code[l.ip].rsize == c.frame + 16
         && Delivers(l, m.code[l.ip].src, c.f.ret.value, v.value)
  }

  ghost predicate Delivers(l: Local, o: Opd, ty: Ty, v: int) {
    InBounds(l, o) && o.size == ty.Size() && Get(l, o) == ty.Pat(v)
  }

  /** k instructions execute a statement: control reaches `end`, or a return instruction with its value. */
  ghost predicate SPost(m: Image, c: Ctx, l: Local, end: nat, out: Outcome<(St, Flow)>, fuel: nat, k: nat, l': Local) {
    if out.Ok? then
      && Mid(m, c, l, k, l', out.value.0, 0)
      && (if out.value.1.Fall? then l'.ip == end else AtReturn(m, c, l', out.value.1.v))
    else SimFail(m, l, k, Kind(out), fuel)
  }

  ghost predicate SPre(m: Image, c: Ctx, st: Stmt, l: Local, s: St) {
    && Ready(m, c, l, s) && l.temps != []
    && PlacedS(m.code, c, l.ip, st) && StmtOk(c.p, c.f, st) && PeakS(c, st) <= |l.temps[0]|
  }

  ghost predicate APre(m: Image, c: Ctx, ss: Stmts, l: Local, s: St) {
    && Ready(m, c, l, s) && l.temps != []
    && PlacedAll(m.code, c, l.ip, ss) && StmtsOk(c.p, c.f, ss) && PeakAll(c, ss) <= |l.temps[0]|
  }

  ghost predicate EPre(m: Image, c: Ctx, els: Else, end: nat, l: Local, s: St) {
    && Ready(m, c, l, s) && l.temps != []
    && PlacedElse(m.code, c, l.ip, end, els) && ElseOk(c.p, c.f, els) && PeakElse(c, els) <= |l.temps[0]|
    && end == l.ip + LenElse(els)
  }

  // ---------- composing runs ----------

  lemma MidReady(m: Image, c: Ctx, l: Local, s: St, k: nat, l1: Local, s1: St, t: nat)
    requires Ready(m, c, l, s) && Mid(m, c, l, k, l1, s1, t)
    ensures Ready(m, c, l1, s1) && l1.temps != [] && l.temps != [] && |l1.temps[0]| == |l.temps[0]| && l1.sp == l.sp
    ensures Match(c, l1, s1) && Wf(c)
  {
    hide Match, Compiled, Within, Runs;
    ReadyTemps(m, c, l, s);
  }

  lemma StayMid(m: Image, c: Ctx, l: Local, s: St)
    requires Ready(m, c, l, s)
    ensures Mid(m, c, l, 0, l, s, 0)
  {
    hide Wf, Compiled, Machine.Step;
    ReadyTemps(m, c, l, s);
    assert Runs(m, l, 0, l);
  }

  /** Execution continues with the rest of the statement, possibly on less fuel. */
  lemma SChain(m: Image, c: Ctx, l: Local, k: nat, l1: Local, s1: St, end: nat, out: Outcome<(St, Flow)>,
               fuel1: nat, fuel: nat, k2: nat, l2: Local)
    requires Mid(m, c, l, k, l1, s1, 0) && SPost(m, c, l1, end, out, fuel1, k2, l2) && fuel <= fuel1 + k
    ensures SPost(m, c, l, end, out, fuel, k + k2, l2)
  {
    hide Match, Keep, AtReturn, Run;
    if out.Ok? {
      MidTrans(m, c, l, k, l1, s1, k2, l2, out.value.0, 0, 0);
    } else {
      MidFacts(m, c, l, k, l1, s1, 0);
      Chain(m, l, k, l1, k2);
    }
  }

  /** A failing part makes the statement fail the same way. */
  lemma SFail<T>(m: Image, c: Ctx, l: Local, end: nat, part: Outcome<T>, out: Outcome<(St, Flow)>, fuel: nat, k: nat, l': Local)
    requires !part.Ok? && SimFail(m, l, k, Kind(part), fuel) && Kind(out) == Kind(part)
    ensures SPost(m, c, l, end, out, fuel, k, l')
  {
    hide SimFail;
  }

  lemma SUndef(m: Image, c: Ctx, l: Local, end: nat, out: Outcome<(St, Flow)>, fuel: nat, k: nat, l': Local)
    requires out.Undef?
    ensures SPost(m, c, l, end, out, fuel, k, l')
  {
  }

  lemma SFall(m: Image, c: Ctx, l: Local, end: nat, out: Outcome<(St, Flow)>, fuel: nat, k: nat, l': Local, s': St)
    requires out == Ok((s', Fall)) && Mid(m, c, l, k, l', s', 0) && l'.ip == end
    ensures SPost(m, c, l, end, out, fuel, k, l')
  {
    hide Mid;
  }

  lemma SReturned(m: Image, c: Ctx, l: Local, end: nat, out: Outcome<(St, Flow)>, fuel: nat, k: nat, l': Local, s': St,
                  v: Option<int>)
    requires out == Ok((s', Returned(v))) && Mid(m, c, l, k, l', s', 0) && AtReturn(m, c, l', v)
    ensures SPost(m, c, l, end, out, fuel, k, l')
  {
    hide Mid, AtReturn;
  }

  lemma STimeout(m: Image, c: Ctx, l: Local, k: nat, l1: Local, s1: St, end: nat, out: Outcome<(St, Flow)>, l': Local)
    requires out.Timeout? && Mid(m, c, l, k, l1, s1, 0)
    ensures SPost(m, c, l, end, out, 0, k, l')
  {
    hide Match, Keep, Run;
  }

  lemma SOpen(m: Image, c: Ctx, l: Local, end: nat, out: Outcome<(St, Flow)>, fuel: nat, k: nat, l': Local)
    requires SPost(m, c, l, end, out, fuel, k, l')
    ensures if out.Ok? then
      && Mid(m, c, l, k, l', out.value.0, 0)
      && (if out.value.1.Fall? then l'.ip == end else AtReturn(m, c, l', out.value.1.v))
      else SimFail(m, l, k, Kind(out), fuel)
  {
    hide Mid, AtReturn, SimFail;
  }

  lemma PostFails(m: Image, c: Ctx, e: Expr, t: nat, l: Local, s: St, fuel: nat, k: nat, l': Local)
    requires Post(m, c, e, t, l, s, fuel, k, l') && !Eval(m.w, c.f, e, s, l.sp, fuel).Ok?
    ensures SimFail(m, l, k, Kind(Eval(m.w, c.f, e, s, l.sp, fuel)), fuel)
  {
    hide Eval, SimFail;
  }

  /** From an evaluated condition over the conditional jump. */
  lemma CondJump(m: Image, c: Ctx, e: Expr, l: Local, s: St, fuel: nat, k: nat, l1: Local, loc: nat, onZero: bool)
    returns (l2: Local)
    requires Pre(m, c, e, 0, l, s) && Post(m, c, e, 0, l, s, fuel, k, l1) && Eval(m.w, c.f, e, s, l.sp, fuel).Ok?
    requires TypeOf(c.p, c.f, e).TInt?
    requires At(m.code, l.ip + Len(e), if onZero then Jz(ResOpd(c, e, 0), loc) else Jnz(ResOpd(c, e, 0), loc))
    ensures var (s1, a) := Eval(m.w, c.f, e, s, l.sp, fuel).value;
      var v := Value(c.f, s1, a);
      v.Ok? ==>
        && Mid(m, c, l, k + 1, l2, s1, 0) && Ready(m, c, l2, s1)
        && l2.ip == if (v.value.0 == 0) == onZero then loc else l.ip + Len(e) + 1
  {
    hide *;
    Open(m, c, e, 0, l, s, fuel, k, l1);
    PreParts(m, c, e, 0, l, s);
    var (s1, a) := Eval(m.w, c.f, e, s, l.sp, fuel).value;
    var v, o, et, t1 := Value(c.f, s1, a), ResOpd(c, e, 0), TypeOf(c.p, c.f, e), TempEnd(c, e, 0);
    l2 := l1;
    if v.Ok? {
      ReadOpd(c, l1, s1, a, o, et, 0, t1);
      JumpIs(m, l1, o, loc, onZero, v.value.1, v.value.0);
      l2 := l1.(ip := if (v.value.0 == 0) == onZero then loc else l1.ip + 1);
      GotoMid(m, c, l, k, l1, s1, 0, l2.ip);
      MidReady(m, c, l, s, k + 1, l2, s1, 0);
    }
  }

  /** The value of a condition is readable or undefined. */
  lemma CondValue(f: Func, s: St, a: Res)
    ensures Value(f, s, a).Ok? || Value(f, s, a).Undef?
  {
  }

  // ---------- initialisers ----------

  predicate Inits(c: Ctx, names: seq<nat>, et: ETy) {
    forall x :: x in names ==> Scalar(c.f, x) && Declared(c.f, x) && et == TInt(c.f.vars[x].ty.value)
  }

  lemma {:induction false} SimInit(m: Image, c: Ctx, l: Local, s: St, names: seq<nat>, r: Res, src: Opd, et: ETy, th: nat)
    returns (k: nat, l': Local)
    requires Ready(m, c, l, s) && l.temps != [] && th <= |l.temps[0]|
    requires PlacedInit(m.code, c, l.ip, names, src) && Denotes(c, l, r, src, et, 0, th) && Inits(c, names, et)
    ensures var out := InitAll(c.f, names, s, r);
      && (out.Ok? || out.Undef?)
      && (out.Ok? ==> Mid(m, c, l, k, l', out.value, 0) && l'.ip == l.ip + |names|)
    decreases |names|
  {
    hide *;
    k, l' := 0, l;
    InitParts(m, c, l, names, r, s, src, et);
    if names == [] {
      StayMid(m, c, l, s);
    } else if DoAssign(c.f, names[0], s, r).Ok? {
      ReadyTemps(m, c, l, s);
      var l1 := DoAssignSim(m, c, l, s, names[0], r, src, 0, th);
      var s1 := DoAssign(c.f, names[0], s, r).value.0;
      StayMid(m, c, l, s);
      InitStep(m, c, l, s, names[0], r, l1, th);
      DenotesKept(c, l, l1, r, src, et, 0, th);
      MidReady(m, c, l, s, 1, l1, s1, 0);
      var k2, l2 := SimInit(m, c, l1, s1, names[1..], r, src, et, th);
      if InitAll(c.f, names, s, r).Ok? {
        MidTrans(m, c, l, 1, l1, s1, k2, l2, InitAll(c.f, names, s, r).value, 0, 0);
      }
      k, l' := 1 + k2, l2;
    }
  }

  lemma InitStep(m: Image, c: Ctx, l: Local, s: St, x: nat, r: Res, l1: Local, th: nat)
    requires DoAssign(c.f, x, s, r).Ok? && Mid(m, c, l, 0, l, s, 0)
    requires SimDo(m, c, l, l1, DoAssign(c.f, x, s, r), VarOpd(c, x), TInt(VarTy(c, x)), th, 0, th)
    ensures Mid(m, c, l, 1, l1, DoAssign(c.f, x, s, r).value.0, 0) && Keep(c.frame, l, l1, th) && l1.ip == l.ip + 1
  {
    hide Match, Machine.Step, Denotes, DoAssign;
    Extend(m, l, 0, l, l1);
    KeepTrans(c.frame, l, l, l1, 0, th);
  }

  lemma InitParts(m: Image, c: Ctx, l: Local, names: seq<nat>, r: Res, s: St, src: Opd, et: ETy)
    requires PlacedInit(m.code, c, l.ip, names, src) && Inits(c, names, et)
    ensures names == [] ==> InitAll(c.f, names, s, r) == Ok(s)
    ensures names != [] ==>
      && Scalar(c.f, names[0]) && Declared(c.f, names[0]) && et == TInt(VarTy(c, names[0]))
      && At(m.code, l.ip, Mov(VarOpd(c, names[0]), src))
      && PlacedInit(m.code, c, l.ip + 1, names[1..], src) && Inits(c, names[1..], et)
      && (DoAssign(c.f, names[0], s, r).Ok? || DoAssign(c.f, names[0], s, r).Undef?)
      && (if DoAssign(c.f, names[0], s, r).Ok?
          then InitAll(c.f, names, s, r) == InitAll(c.f, names[1..], DoAssign(c.f, names[0], s, r).value.0, r)
          else InitAll(c.f, names, s, r).Undef?)
  {
    hide At, Declared;
    assert names != [] ==> names[0] in names;
  }

  // ---------- one level of every statement ----------

  lemma SParts(m: Image, c: Ctx, st: Stmt, l: Local, s: St)
    requires SPre(m, c, st, l, s)
    ensures Ready(m, c, l, s) && l.temps != [] && PlacedS(m.code, c, l.ip, st) && StmtOk(c.p, c.f, st)
    ensures PeakS(c, st) <= |l.temps[0]| && Match(c, l, s) && Wf(c)
  {
    hide Compiled, Within, Match, PlacedS, StmtOk, PeakS;
    ReadyTemps(m, c, l, s);
  }

  lemma ExprSUnfold(m: Image, c: Ctx, st: Stmt, l: Local, s: St, fuel: nat)
    requires SPre(m, c, st, l, s) && st.ExprS?
    ensures Pre(m, c, st.e, 0, l, s) && LenS(st) == Len(st.e) + 1 && At(m.code, l.ip + Len(st.e), Nop)
    ensures var o, r := Exec(m.w, c.f, st, s, l.sp, fuel), Eval(m.w, c.f, st.e, s, l.sp, fuel);
      if r.Ok? then o == Ok((r.value.0, Fall)) else Kind(o) == Kind(r)
  {
    hide Eval, Peak, TypeOf, Placed, Len, Ready;
  }

  lemma NopIs(m: Image, l: Local)
    requires At(m.code, l.ip, Nop)
    ensures Machine.Step(m.code, l, m.fill) == Next(l.(ip := l.ip + 1))
  {
  }

  lemma DeclUnfold(m: Image, c: Ctx, st: Stmt, l: Local, s: St, fuel: nat)
    requires SPre(m, c, st, l, s) && st.Decl?
    ensures st.init.None? ==> LenS(st) == 0 && Exec(m.w, c.f, st, s, l.sp, fuel) == Ok((s, Fall))
    ensures st.init.Some? ==>
      && Pre(m, c, st.init.value, 0, l, s) && LenS(st) == Len(st.init.value) + |st.names|
      && PlacedInit(m.code, c, l.ip + Len(st.init.value), st.names, ResOpd(c, st.init.value, 0))
      && Inits(c, st.names, TypeOf(c.p, c.f, st.init.value))
      && TempEnd(c, st.init.value, 0) <= |l.temps[0]|
      && var o, r := Exec(m.w, c.f, st, s, l.sp, fuel), Eval(m.w, c.f, st.init.value, s, l.sp, fuel);
         if !r.Ok? then Kind(o) == Kind(r)
         else
           var q := InitAll(c.f, st.names, r.value.0, r.value.1);
           (q.Ok? ==> o == Ok((q.value, Fall))) && (q.Undef? ==> o.Undef?)
  {
    hide Eval, TypeOf, Placed, Len, Ready, PlacedInit, InitAll, Declared, Scalar;
    if st.init.Some? {
      assert Peak(c, st.init.value, 0) >= TempEnd(c, st.init.value, 0);
    }
  }

  lemma BlockUnfold(m: Image, c: Ctx, st: Stmt, l: Local, s: St, fuel: nat)
    requires SPre(m, c, st, l, s) && st.Block?
    ensures APre(m, c, st.body, l, s) && LenS(st) == LenAll(st.body)
    ensures Exec(m.w, c.f, st, s, l.sp, fuel) == ExecAll(m.w, c.f, st.body, s, l.sp, fuel)
  {
    hide ExecAll, Ready, PlacedAll, StmtsOk, PeakAll, LenAll;
  }

  lemma NoIntUnfold(m: Image, c: Ctx, st: Stmt, l: Local, s: St, fuel: nat)
    requires SPre(m, c, st, l, s) && st.NoInt?
    ensures At(m.code, l.ip, NoIntI) && At(m.code, l.ip + 1 + LenAll(st.body), IntI)
    ensures PlacedAll(m.code, c, l.ip + 1, st.body) && StmtsOk(c.p, c.f, st.body) && PeakAll(c, st.body) <= |l.temps[0]|
    ensures LenS(st) == LenAll(st.body) + 2
    ensures var o, q := Exec(m.w, c.f, st, s, l.sp, fuel), ExecAll(m.w, c.f, st.body, s.(noint := s.noint.Raised()), l.sp, fuel);
      if !q.Ok? then Kind(o) == Kind(q)
      else if q.value.1.Fall? then o == Ok((q.value.0.(noint := q.value.0.noint.Lowered()), Fall)) else o == q
  {
    hide ExecAll, Ready, PlacedAll, StmtsOk, PeakAll, LenAll, At;
  }

  function FlagChanged(i: Insn, s: St): St {
    if i.WLab? then s.(passed := i.lab)
    else s.(noint := if i.NoIntI? then s.noint.Raised() else s.noint.Lowered())
  }

  lemma FlagChanges(i: Insn, s: St)
    ensures i == NoIntI ==> FlagChanged(i, s) == s.(noint := s.noint.Raised())
    ensures i == IntI ==> FlagChanged(i, s) == s.(noint := s.noint.Lowered())
    ensures i.WLab? ==> FlagChanged(i, s) == s.(passed := i.lab)
  {
  }

  /** NOINT, INT and WLAB: the flag or the label changes, in the machine as in the source. */
  lemma FlagStep(m: Image, c: Ctx, l: Local, s: St, k: nat, l1: Local, s1: St) returns (l2: Local)
    requires Mid(m, c, l, k, l1, s1, 0)
    requires l1.ip < |m.code| && (m.code[l1.ip].NoIntI? || m.code[l1.ip].IntI? || m.code[l1.ip].WLab?)
    ensures var s2 := FlagChanged(m.code[l1.ip], s1);
      Mid(m, c, l, k + 1, l2, s2, 0) && l2.ip == l1.ip + 1
  {
    var s2 := FlagChanged(m.code[l1.ip], s1);
    l2 := l1.(noint := s2.noint, passed := s2.passed, ip := l1.ip + 1);
    hide Machine.Step, Runs, Match, Keep;
    FlagIs(m, l1);
    Extend(m, l, k, l1, l2);
    FlagMatch(c, l, l1, s1, s2, l2);
  }

  lemma FlagMatch(c: Ctx, l: Local, l1: Local, s1: St, s2: St, l2: Local)
    requires Match(c, l1, s1) && Keep(c.frame, l, l1, 0)
    requires s2.vars == s1.vars && l2 == l1.(noint := s2.noint, passed := s2.passed, ip := l1.ip + 1)
    ensures Match(c, l2, s2) && Keep(c.frame, l, l2, 0)
  {
    forall y | y in s2.vars ensures Holds(c, l2, y, s2.vars[y]) {
      assert Holds(c, l1, y, s1.vars[y]);
    }
  }

  lemma FlagIs(m: Image, l: Local)
    requires l.ip < |m.code|
    ensures m.code[l.ip].NoIntI? ==> Machine.Step(m.code, l, m.fill) == Next(l.(noint := l.noint.Raised(), ip := l.ip + 1))
    ensures m.code[l.ip].IntI? ==> Machine.Step(m.code, l, m.fill) == Next(l.(noint := l.noint.Lowered(), ip := l.ip + 1))
    ensures m.code[l.ip].WLab? ==> Machine.Step(m.code, l, m.fill) == Next(l.(passed := m.code[l.ip].lab, ip := l.ip + 1))
  {
  }

  lemma AtIs(code: seq<Insn>, i: nat, insn: Insn)
    requires At(code, i, insn)
    ensures i < |code| && code[i] == insn
  {
  }

  lemma WLabelUnfold(m: Image, c: Ctx, st: Stmt, l: Local, s: St, fuel: nat)
    requires SPre(m, c, st, l, s) && st.WLabel?
    ensures At(m.code, l.ip, WLab(st.lab)) && LenS(st) == 1
    ensures Exec(m.w, c.f, st, s, l.sp, fuel) == Ok((s.(passed := st.lab), Fall))
  {
    hide Ready, At;
  }

  lemma MkAPre(m: Image, c: Ctx, ss: Stmts, l: Local, s: St)
    requires Ready(m, c, l, s) && l.temps != []
    requires PlacedAll(m.code, c, l.ip, ss) && StmtsOk(c.p, c.f, ss) && PeakAll(c, ss) <= |l.temps[0]|
    ensures APre(m, c, ss, l, s)
  {
    hide Ready, PlacedAll, StmtsOk, PeakAll;
  }

  lemma IfUnfold(m: Image, c: Ctx, st: Stmt, l: Local, s: St, fuel: nat)
    requires SPre(m, c, st, l, s) && st.If?
    ensures EPre(m, c, st.branches, l.ip + LenS(st), l, s)
    ensures Exec(m.w, c.f, st, s, l.sp, fuel) == ExecElse(m.w, c.f, st.branches, s, l.sp, fuel)
  {
    hide ExecElse, Ready, PlacedElse, ElseOk, PeakElse, LenElse;
  }

  lemma WhileUnfold(m: Image, c: Ctx, st: Stmt, l: Local, s: St)
    requires SPre(m, c, st, l, s) && st.While?
    ensures Pre(m, c, st.c, 0, l, s) && TypeOf(c.p, c.f, st.c).TInt?
    ensures LenS(st) == Len(st.c) + 1 + LenAll(st.body) + 1
    ensures At(m.code, l.ip + Len(st.c), Jz(ResOpd(c, st.c, 0), l.ip + LenS(st)))
    ensures PlacedAll(m.code, c, l.ip + Len(st.c) + 1, st.body) && At(m.code, l.ip + Len(st.c) + 1 + LenAll(st.body), Jmp(l.ip))
    ensures StmtsOk(c.p, c.f, st.body) && PeakAll(c, st.body) <= |l.temps[0]|
  {
    hide Ready, PlacedAll, StmtsOk, PeakAll, LenAll, At, Placed, TypeOf, Peak, Len;
  }

  lemma WhileEval(w: World, f: Func, st: Stmt, s: St, sp: nat, fuel: nat)
    requires st.While?
    ensures var o, r := Exec(w, f, st, s, sp, fuel), Eval(w, f, st.c, s, sp, fuel);
      if !r.Ok? then Kind(o) == Kind(r)
      else
        var v := Value(f, r.value.0, r.value.1);
        && (v.Undef? ==> o.Undef?)
        && (v.Ok? && v.value.0 == 0 ==> o == Ok((r.value.0, Fall)))
        && (v.Ok? && v.value.0 != 0 ==>
              var q := ExecAll(w, f, st.body, r.value.0, sp, fuel);
              if !q.Ok? then Kind(o) == Kind(q)
              else if q.value.1.Returned? then o == q
              else if fuel == 0 then o.Timeout?
              else o == Exec(w, f, st, q.value.0, sp, fuel - 1))
  {
    hide Eval, Value, ExecAll;
  }

  lemma DoWhileUnfold(m: Image, c: Ctx, st: Stmt, l: Local, s: St)
    requires SPre(m, c, st, l, s) && st.DoWhile?
    ensures APre(m, c, st.body, l, s) && TypeOf(c.p, c.f, st.c).TInt?
    ensures LenS(st) == LenAll(st.body) + Len(st.c) + 1
    ensures Placed(m.code, c, l.ip + LenAll(st.body), 0, st.c) && Peak(c, st.c, 0) <= |l.temps[0]|
    ensures At(m.code, l.ip + LenAll(st.body) + Len(st.c), Jnz(ResOpd(c, st.c, 0), l.ip))
    ensures !TypeOf(c.p, c.f, st.c).TErr?
  {
    hide Ready, PlacedAll, StmtsOk, PeakAll, LenAll, At, Placed, TypeOf, Peak, Len;
  }

  lemma DoWhileEval(w: World, f: Func, st: Stmt, s: St, sp: nat, fuel: nat)
    requires st.DoWhile?
    ensures var o, q := Exec(w, f, st, s, sp, fuel), ExecAll(w, f, st.body, s, sp, fuel);
      if !q.Ok? then Kind(o) == Kind(q)
      else if q.value.1.Returned? then o == q
      else
        var r := Eval(w, f, st.c, q.value.0, sp, fuel);
        if !r.Ok? then Kind(o) == Kind(r)
        else
          var v := Value(f, r.value.0, r.value.1);
          && (v.Undef? ==> o.Undef?)
          && (v.Ok? && v.value.0 == 0 ==> o == Ok((r.value.0, Fall)))
          && (v.Ok? && v.value.0 != 0 ==>
                if fuel == 0 then o.Timeout? else o == Exec(w, f, st, r.value.0, sp, fuel - 1))
  {
    hide Eval, Value, ExecAll;
  }

  /** The state after one round of a loop satisfies the loop's precondition again. */
  lemma SAgain(m: Image, c: Ctx, st: Stmt, l: Local, s: St, k: nat, l1: Local, s1: St)
    requires SPre(m, c, st, l, s) && Mid(m, c, l, k, l1, s1, 0) && l1.ip == l.ip
    ensures SPre(m, c, st, l1, s1) && l1.sp == l.sp
  {
    hide Ready, PlacedS, StmtOk, PeakS, Mid;
    MidReady(m, c, l, s, k, l1, s1, 0);
  }

  lemma ReturnUnfold(m: Image, c: Ctx, st: Stmt, l: Local, s: St, fuel: nat)
    requires SPre(m, c, st, l, s) && st.Return?
    ensures st.val.None? ==>
      && At(m.code, l.ip, RetI(c.frame + 16)) && Exec(m.w, c.f, st, s, l.sp, fuel) == Ok((s, Returned(None)))
      && AtReturn(m, c, l, None)
    ensures st.val.Some? ==>
      && Pre(m, c, st.val.value, 0, l, s) && c.f.ret.Some? && TypeOf(c.p, c.f, st.val.value) == TInt(c.f.ret.value)
      && At(m.code, l.ip + Len(st.val.value), RetV(ResOpd(c, st.val.value, 0), c.frame + 16))
      && var o, r := Exec(m.w, c.f, st, s, l.sp, fuel), Eval(m.w, c.f, st.val.value, s, l.sp, fuel);
         if !r.Ok? then Kind(o) == Kind(r)
         else
           var v := Value(c.f, r.value.0, r.value.1);
           (v.Undef? ==> o.Undef?) && (v.Ok? ==> o == Ok((r.value.0, Returned(Some(v.value.0)))))
  {
    hide Ready, Placed, TypeOf, Peak, Len, Eval, Value;
  }

  lemma MkAtReturn(m: Image, c: Ctx, l: Local, o: Opd, v: int)
    requires c.f.ret.Some? && c.f.ret.value.Holds(v) && At(m.code, l.ip, RetV(o, c.frame + 16))
    requires InBounds(l, o) && o.size == c.f.ret.value.Size() && Get(l, o) == c.f.ret.value.Pat(v)
    ensures AtReturn(m, c, l, Some(v))
  {
  }

  lemma ConsUnfold(m: Image, c: Ctx, ss: Stmts, l: Local, s: St)
    requires APre(m, c, ss, l, s) && ss.Cons?
    ensures SPre(m, c, ss.head, l, s) && LenAll(ss) == LenS(ss.head) + LenAll(ss.tail)
    ensures PlacedAll(m.code, c, l.ip + LenS(ss.head), ss.tail) && StmtsOk(c.p, c.f, ss.tail)
    ensures PeakAll(c, ss.tail) <= |l.temps[0]| && Ready(m, c, l, s)
  {
    hide Ready, PlacedS, StmtOk, PeakS, LenS;
  }

  lemma ConsEval(w: World, f: Func, ss: Stmts, s: St, sp: nat, fuel: nat)
    ensures ss.Nil? ==> ExecAll(w, f, ss, s, sp, fuel) == Ok((s, Fall)) && LenAll(ss) == 0
    ensures ss.Cons? ==>
      var o, q := ExecAll(w, f, ss, s, sp, fuel), Exec(w, f, ss.head, s, sp, fuel);
      if !q.Ok? then Kind(o) == Kind(q)
      else if q.value.1.Returned? then o == q
      else o == ExecAll(w, f, ss.tail, q.value.0, sp, fuel)
  {
    hide Exec;
  }

  lemma APreReady(m: Image, c: Ctx, ss: Stmts, l: Local, s: St)
    requires APre(m, c, ss, l, s)
    ensures Ready(m, c, l, s)
  {
    hide Ready, PlacedAll, StmtsOk, PeakAll;
  }

  lemma ElifUnfold(m: Image, c: Ctx, els: Else, end: nat, l: Local, s: St)
    requires EPre(m, c, els, end, l, s)
    ensures Ready(m, c, l, s)
    ensures els.NoElse? ==> l.ip == end
    ensures els.ElseBlock? ==> APre(m, c, els.body, l, s) && end == l.ip + LenAll(els.body)
    ensures els.Elif? ==>
      var pb := l.ip + Len(els.c) + 1;
      var pe := pb + LenAll(els.body) + 1;
      && Pre(m, c, els.c, 0, l, s) && TypeOf(c.p, c.f, els.c).TInt?
      && At(m.code, l.ip + Len(els.c), Jz(ResOpd(c, els.c, 0), pe))
      && PlacedAll(m.code, c, pb, els.body) && StmtsOk(c.p, c.f, els.body) && PeakAll(c, els.body) <= |l.temps[0]|
      && At(m.code, pb + LenAll(els.body), Jmp(end))
      && PlacedElse(m.code, c, pe, end, els.els) && ElseOk(c.p, c.f, els.els) && PeakElse(c, els.els) <= |l.temps[0]|
      && end == pe + LenElse(els.els)
  {
    hide Ready, PlacedAll, StmtsOk, PeakAll, LenAll, At, Placed, TypeOf, Peak, Len;
  }

  lemma ElifEval(w: World, f: Func, els: Else, s: St, sp: nat, fuel: nat)
    ensures els.NoElse? ==> ExecElse(w, f, els, s, sp, fuel) == Ok((s, Fall))
    ensures els.ElseBlock? ==> ExecElse(w, f, els, s, sp, fuel) == ExecAll(w, f, els.body, s, sp, fuel)
    ensures els.Elif? ==>
      var o, r := ExecElse(w, f, els, s, sp, fuel), Eval(w, f, els.c, s, sp, fuel);
      if !r.Ok? then Kind(o) == Kind(r)
      else
        var v := Value(f, r.value.0, r.value.1);
        && (v.Undef? ==> o.Undef?)
        && (v.Ok? && v.value.0 != 0 ==> o == ExecAll(w, f, els.body, r.value.0, sp, fuel))
        && (v.Ok? && v.value.0 == 0 ==> o == ExecElse(w, f, els.els, r.value.0, sp, fuel))
  {
    hide Eval, Value, ExecAll;
  }

  lemma MkEPre(m: Image, c: Ctx, els: Else, end: nat, l: Local, s: St)
    requires Ready(m, c, l, s) && l.temps != []
    requires PlacedElse(m.code, c, l.ip, end, els) && ElseOk(c.p, c.f, els) && PeakElse(c, els) <= |l.temps[0]|
    requires end == l.ip + LenElse(els)
    ensures EPre(m, c, els, end, l, s)
  {
    hide Ready, PlacedElse, ElseOk, PeakElse;
  }

  // ---------- entering and leaving a function ----------

  function FuncCtx(m: Image, g: nat): Ctx
    requires g < |m.w.prog| && DeclsOk(m.w.prog[g])
  {
    CtxOf(m.w.prog, m.w.prog[g], LinkedFns(m.locs))
  }

  /** The state right after a call instruction: at the function's first instruction, arguments pushed. */
  ghost predicate Entry(m: Image, g: nat, l: Local, vals: seq<int>, noint: Flag, passed: Label) {
    && Compiled(m) && g < |m.w.prog| && l.ip == m.locs[g] && |l.stack| == m.w.cap
    && 16 <= l.bp && l.bp % 8 == 0 && l.sp == l.bp + 8 * |vals| && l.sp <= |l.stack|
    && |vals| == m.w.prog[g].params && Pushed(l.stack, l.bp, vals, m.w.prog[g], 0)
    && l.noint == noint && l.passed == passed
  }

  /** The body has run: everything below its frame is as before, one more frame of temporaries is on top. */
  ghost predicate Returning(m: Image, g: nat, l: Local, k: nat, l': Local, ret: Ret) {
    && g < |m.w.prog| && DeclsOk(m.w.prog[g])
    && Runs(m, l, k, l') && AtReturn(m, FuncCtx(m, g), l', ret.v)
    && l'.noint == ret.noint && l'.passed == ret.passed
    && l'.bp == l.bp && l'.sp == l.bp + FuncCtx(m, g).frame && l'.sp <= |l'.stack| == |l.stack|
    && l'.sp % 8 == 0 && l'.bp % 8 == 0
    && l'.stack[..l.bp] == l.stack[..l.bp] && l'.temps != [] && l'.temps[1..] == l.temps
  }

  ghost predicate BodyPost(m: Image, g: nat, l: Local, vals: seq<int>, noint: Flag, passed: Label, fuel: nat,
                           k: nat, l': Local)
  {
    && g < |m.w.prog| && g < |m.w.locals|
    && var out := EvalBody(m.w, g, vals, noint, passed, l.sp, fuel);
       if out.Ok? then Returning(m, g, l, k, l', out.value) else SimFail(m, l, k, Kind(out), fuel)
  }

  lemma EntryFacts(m: Image, g: nat, l: Local, vals: seq<int>, noint: Flag, passed: Label)
    requires Entry(m, g, l, vals, noint, passed)
    ensures g < |m.w.prog| && g < |m.w.locals| && g < |m.locs| && DeclsOk(m.w.prog[g]) && Compiled(m)
    ensures Within(m, FuncCtx(m, g)) && FuncCtx(m, g).f == m.w.prog[g] && FuncCtx(m, g).p == m.w.prog
    ensures l.ip == m.locs[g] && |l.stack| == m.w.cap && 16 <= l.bp <= l.sp
    ensures l.bp + FuncCtx(m, g).frame == l.sp + m.w.locals[g] && FuncCtx(m, g).frame % 8 == 0
    ensures ArgsSize(m.w.prog[g]) == 8 * m.w.prog[g].params
    ensures PlacedF(m.code, FuncCtx(m, g), m.locs[g]) && StmtsOk(m.w.prog, m.w.prog[g], m.w.prog[g].body)
    ensures l.sp % 8 == 0 && m.w.locals[g] % 8 == 0
    ensures m.w.locals[g] == FuncCtx(m, g).frame - ArgsSize(m.w.prog[g])
  {
    hide *;
    EntryParts(m, g, l, vals, noint, passed);
    CompiledParts(m, g);
    var f := m.w.prog[g];
    FuncScalars(m.w.prog, f);
    ParamsAreWhereArgumentsArePushed(f);
    FrameLayGood(f);
    FuncCtxFields(m, g);
  }

  lemma EntryParts(m: Image, g: nat, l: Local, vals: seq<int>, noint: Flag, passed: Label)
    requires Entry(m, g, l, vals, noint, passed)
    ensures Compiled(m) && g < |m.w.prog| && |m.locs| == |m.w.locals| == |m.w.prog| && l.ip == m.locs[g]
    ensures |l.stack| == m.w.cap && 16 <= l.bp && l.bp % 8 == 0 && l.sp == l.bp + 8 * |vals|
    ensures |vals| == m.w.prog[g].params
  {
    hide FuncPlaced, ProgramOk;
  }

  lemma CompiledParts(m: Image, g: nat)
    requires Compiled(m) && g < |m.w.prog|
    ensures |m.locs| == |m.w.locals| == |m.w.prog| && FuncOk(m.w.prog, m.w.prog[g]) && DeclsOk(m.w.prog[g])
    ensures m.locs[g] < |m.code| && m.w.locals[g] == FrameLay(m.w.prog[g]).frame - ArgsSize(m.w.prog[g])
    ensures PlacedF(m.code, FuncCtx(m, g), m.locs[g])
    ensures |m.code| < Pow256(8) && m.w.cap < Pow256(8) && m.w.cap % 8 == 0
  {
    hide PlacedF, FrameLay, ArgsSize, DeclsOk, StmtsOk, CtxOf;
    assert FuncPlaced(m, g);
  }

  lemma FuncCtxFields(m: Image, g: nat)
    requires g < |m.w.prog| && DeclsOk(m.w.prog[g])
    ensures Within(m, FuncCtx(m, g)) && FuncCtx(m, g).f == m.w.prog[g] && FuncCtx(m, g).p == m.w.prog
    ensures FuncCtx(m, g).frame == FrameLay(m.w.prog[g]).frame
  {
    hide DeclsOk, FrameLay;
  }

  lemma FuncScalars(p: Program, f: Func)
    requires FuncOk(p, f)
    ensures DeclsOk(f) && ScalarParams(f) && StmtsOk(p, f, f.body)
  {
  }

  /** INCSP makes room for the locals and for the temporaries. */
  ghost function Entered(c: Ctx, l: Local, locals: nat, fill: Fill): Local {
    l.(ip := l.ip + 1, atStart := false, sp := l.sp + locals, temps := [Fresh(PeakAll(c, c.f.body), fill, l)] + l.temps)
  }

  lemma IncSpIs(m: Image, l: Local, addend: nat, tsize: nat)
    requires At(m.code, l.ip, IncSp(addend, tsize)) && addend % 8 == 0 && l.sp % 8 == 0
    ensures Machine.Step(m.code, l, m.fill) ==
      if l.sp + addend > |l.stack| then Illegal
      else Next(l.(ip := l.ip + 1, atStart := false, sp := l.sp + addend, temps := [Fresh(tsize, m.fill, l)] + l.temps))
  {
  }

  lemma PlacedFParts(code: seq<Insn>, c: Ctx, p: nat)
    requires DeclsOk(c.f) && PlacedF(code, c, p)
    ensures ArgsSize(c.f) <= c.frame && At(code, p, IncSp(c.frame - ArgsSize(c.f), PeakAll(c, c.f.body)))
    ensures PlacedAll(code, c, p + 1, c.f.body) && At(code, p + 1 + LenAll(c.f.body), RetI(c.frame + 16))
  {
  }

  /** The arguments are where the parameters' slots are. */
  lemma ParamsHold(f: Func, c: Ctx, l: Local, vals: seq<int>, x: nat)
    requires Wf(c) && c.f == f && ScalarParams(f) && |vals| == f.params && Pushed(l.stack, l.bp, vals, f, 0)
    requires x < |vals|
    ensures Holds(c, l, x, vals[x])
  {
    ParamsAreWhereArgumentsArePushed(f);
    FrameLayGood(f);
    hide FrameLay;
    assert PushedWord(l.stack, l.bp + 8 * x, f, 0 + x, vals[x]);
  }

  lemma EnterMatch(m: Image, g: nat, l: Local, vals: seq<int>, noint: Flag, passed: Label)
    requires Entry(m, g, l, vals, noint, passed)
    requires g < |m.w.locals| && l.sp + m.w.locals[g] <= |l.stack|
    ensures g < |m.w.prog| && DeclsOk(m.w.prog[g])
    ensures var c := FuncCtx(m, g);
      Ready(m, c, Entered(c, l, m.w.locals[g], m.fill), St(Bind(vals), noint, passed))
  {
    hide Wf, Within, Compiled, Holds, FuncCtx, PlacedF, PeakAll, StmtsOk, Fresh, Pushed, ArgsSize, DeclsOk, ScalarParams;
    EntryFacts(m, g, l, vals, noint, passed);
    var c, s := FuncCtx(m, g), St(Bind(vals), noint, passed);
    var l1 := Entered(c, l, m.w.locals[g], m.fill);
    CompiledParts(m, g);
    FuncScalars(m.w.prog, c.f);
    WithinWf(m, c);
    forall x | x in s.vars ensures Holds(c, l1, x, s.vars[x]) {
      ParamsHold(c.f, c, l1, vals, x);
    }
  }

  lemma WithinWf(m: Image, c: Ctx)
    requires Within(m, c)
    ensures Wf(c)
  {
  }

  /** From the function's entry to its first statement, or the rejected INCSP. */
  lemma Enter(m: Image, g: nat, l: Local, vals: seq<int>, noint: Flag, passed: Label)
    requires Entry(m, g, l, vals, noint, passed)
    ensures g < |m.w.prog| && g < |m.w.locals| && DeclsOk(m.w.prog[g])
    ensures var c := FuncCtx(m, g);
      if l.sp + m.w.locals[g] > m.w.cap then Machine.Step(m.code, l, m.fill) == Illegal
      else
        var l1 := Entered(c, l, m.w.locals[g], m.fill);
        && Machine.Step(m.code, l, m.fill) == Next(l1) && l1.sp == l.sp + m.w.locals[g] && l1.sp == l.bp + c.frame
        && APre(m, c, c.f.body, l1, St(Bind(vals), noint, passed))
        && At(m.code, l1.ip + LenAll(c.f.body), RetI(c.frame + 16)) && c.f == m.w.prog[g]
  {
    hide Entry, Ready, Machine.Step, PlacedAll, StmtsOk, PeakAll, FuncCtx, PlacedF, Within, At, Compiled, DeclsOk, ArgsSize;
    EntryFacts(m, g, l, vals, noint, passed);
    var c := FuncCtx(m, g);
    PlacedFParts(m.code, c, l.ip);
    IncSpIs(m, l, m.w.locals[g], PeakAll(c, c.f.body));
    if l.sp + m.w.locals[g] <= m.w.cap {
      EnterMatch(m, g, l, vals, noint, passed);
      MkAPre(m, c, c.f.body, Entered(c, l, m.w.locals[g], m.fill), St(Bind(vals), noint, passed));
    }
  }

  lemma BodyEval(w: World, g: nat, vals: seq<int>, noint: Flag, passed: Label, sp: nat, fuel: nat)
    requires g < |w.prog| && g < |w.locals|
    ensures var o := EvalBody(w, g, vals, noint, passed, sp, fuel);
      if sp + w.locals[g] > w.cap then o.Overflow?
      else
        var q := ExecAll(w, w.prog[g], w.prog[g].body, St(Bind(vals), noint, passed), sp + w.locals[g], fuel);
        if !q.Ok? then Kind(o) == Kind(q)
        else match q.value.1
             case Fall => if w.prog[g].ret.None? then o == Ok(Ret(None, q.value.0.noint, q.value.0.passed)) else o.Undef?
             case Returned(v) => o == Ok(Ret(v, q.value.0.noint, q.value.0.passed))
  {
    hide ExecAll;
  }
}
