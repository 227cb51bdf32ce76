/** Compiled noint blocks: when a block keeps its flag from NOINT to INT, and what the system does meanwhile. */
module NointBlocks {
  import opened Options
  import opened Bytes
  import opened Words
  import opened Ast
  import opened Insn
  import opened Machine
  import opened Codegen
  import opened SimBase
  import opened SimGlue
  import opened SimCalls
  import opened SimStmts
  import opened Source
  import opened Quaint
  import opened ActiveChain
  import opened Protocol
  import opened Noints
  import Simulation
  import Flags

  // ---------- the flag along a run of one machine ----------

  /** After each of the first k instructions the flag is set. */
  ghost predicate HeldFor(code: seq<Insn>, fill: Fill, l: Local, k: nat) {
    forall n: nat :: 0 < n <= k ==> Run(code, l, n, fill).Next? && Run(code, l, n, fill).l.noint.on
  }

  lemma RunHead(code: seq<Insn>, fill: Fill, l: Local, k: nat)
    ensures Run(code, l, 0, fill) == Next(l)
    ensures k > 0 ==> Run(code, l, k, fill) == if Step(code, l, fill).Next? then Run(code, Step(code, l, fill).l, k - 1, fill)
                                               else Step(code, l, fill)
  {
    hide Step;
  }

  lemma {:induction false} ClearedGrows(code: seq<Insn>, fill: Fill, l: Local, k: nat)
    requires Run(code, l, k, fill).Next?
    ensures l.noint.cleared <= Run(code, l, k, fill).l.noint.cleared
    decreases k
  {
    hide Step, Run;
    RunHead(code, fill, l, k);
    if k > 0 {
      StepFlag(code, l, fill);
      ClearedGrows(code, fill, Step(code, l, fill).l, k - 1);
    }
  }

  /** A set flag that INT has not cleared by the k-th instruction has been set all along. */
  lemma {:induction false} StaysSet(code: seq<Insn>, fill: Fill, l: Local, n: nat, k: nat)
    requires n <= k && Run(code, l, k, fill).Next? && l.noint.on
    requires Run(code, l, k, fill).l.noint.cleared == l.noint.cleared
    ensures Run(code, l, n, fill).Next? && Run(code, l, n, fill).l.noint == l.noint
    decreases n
  {
    hide Step, Run;
    RunHead(code, fill, l, k);
    RunHead(code, fill, l, n);
    if n > 0 {
      StepFlag(code, l, fill);
      ClearedGrows(code, fill, Step(code, l, fill).l, k - 1);
      StaysSet(code, fill, Step(code, l, fill).l, n - 1, k - 1);
    }
  }

  /** A clear flag that is clear, and not once more cleared, after k instructions has been clear all along. */
  lemma {:induction false} StaysClear(code: seq<Insn>, fill: Fill, l: Local, n: nat, k: nat)
    requires n <= k && Run(code, l, k, fill).Next? && !l.noint.on && Run(code, l, k, fill).l.noint == l.noint
    ensures Run(code, l, n, fill).Next? && !Run(code, l, n, fill).l.noint.on
    decreases n
  {
    hide Step, Run;
    RunHead(code, fill, l, k);
    RunHead(code, fill, l, n);
    if n > 0 {
      var l1 := Step(code, l, fill).l;
      StepFlag(code, l, fill);
      ClearedGrows(code, fill, l1, k - 1);
      if l1.noint.on {
        StaysSet(code, fill, l1, k - 1, k - 1);
      }
      StaysClear(code, fill, l1, n - 1, k - 1);
    }
  }

  /** While the flag is set, INT is not executed. */
  lemma {:induction false} HeldCounts(code: seq<Insn>, fill: Fill, l: Local, k: nat)
    requires k > 0 && HeldFor(code, fill, l, k)
    ensures Run(code, l, k, fill).Next? && Run(code, l, k, fill).l.noint == l.noint.Raised()
    decreases k
  {
    hide Step, Run;
    RunHead(code, fill, l, k);
    RunHead(code, fill, l, 1);
    assert Run(code, l, 1, fill).Next? && Run(code, l, 1, fill).l.noint.on;
    var l1 := Step(code, l, fill).l;
    StepFlag(code, l, fill);
    RunHead(code, fill, l1, k - 1);
    if k > 1 {
      forall n: nat | 0 < n <= k - 1 ensures Run(code, l1, n, fill).Next? && Run(code, l1, n, fill).l.noint.on {
        RunHead(code, fill, l, n + 1);
        assert Run(code, l, n + 1, fill).Next? && Run(code, l, n + 1, fill).l.noint.on;
      }
      HeldCounts(code, fill, l1, k - 1);
    }
  }

  /** From NOINT on, the flag is set after each of k instructions exactly when INT has not been executed among them. */
  lemma HeldExactly(code: seq<Insn>, fill: Fill, l: Local, k: nat)
    requires l.ip < |code| && code[l.ip] == NoIntI && k > 0 && Run(code, l, k, fill).Next?
    ensures HeldFor(code, fill, l, k) <==> Run(code, l, k, fill).l.noint == l.noint.Raised()
  {
    hide Run;
    RunHead(code, fill, l, k);
    var l1 := Step(code, l, fill).l;
    hide Step;
    if Run(code, l, k, fill).l.noint == l.noint.Raised() {
      forall n: nat | 0 < n <= k ensures Run(code, l, n, fill).Next? && Run(code, l, n, fill).l.noint.on {
        RunHead(code, fill, l, n);
        StaysSet(code, fill, l1, n - 1, k - 1);
      }
    }
    if HeldFor(code, fill, l, k) {
      HeldCounts(code, fill, l, k);
    }
  }

  // ---------- the system while a machine holds the flag ----------

  /** An instruction of its own that leaves the flag set: nothing else happens in the system. */
  lemma AloneStep(code: seq<Insn>, s: Sys, env: Env, fill: Fill, l1: Local)
    requires s.cur in s.vms && Step(code, s.vms[s.cur].local, fill) == Next(l1) && l1.noint.on
    ensures SysStep(code, s, env, fill).Go?
    ensures var s' := SysStep(code, s, env, fill).s;
      s'.cur == s.cur && s'.vms == s.vms[s.cur := s.vms[s.cur].(local := l1)]
  {
    hide Step;
  }

  /** x is the running machine, in state l, and nothing else differs from s. */
  ghost predicate OnlyMoved(s: Sys, s': Sys, l: Local)
    requires s.cur in s.vms
  {
    s'.cur == s.cur && s'.vms == s.vms[s.cur := s.vms[s.cur].(local := l)]
  }

  lemma MovedOn(s: Sys, s1: Sys, s2: Sys, l1: Local, l2: Local)
    requires s.cur in s.vms && OnlyMoved(s, s1, l1) && s1.cur in s1.vms
    requires s2.cur == s1.cur && s2.vms == s1.vms[s1.cur := s1.vms[s1.cur].(local := l2)]
    ensures OnlyMoved(s, s2, l2)
  {
  }

  lemma RunLast(code: seq<Insn>, fill: Fill, l: Local, n: nat)
    requires n > 0 && Run(code, l, n, fill).Next?
    ensures Run(code, l, n - 1, fill).Next? && Step(code, Run(code, l, n - 1, fill).l, fill) == Run(code, l, n, fill)
  {
    hide Step, Run;
    if !Run(code, l, n - 1, fill).Next? {
      RunStopped(code, l, n - 1, n, fill);
    }
    RunAdd(code, l, n - 1, 1, fill);
    var l1 := Run(code, l, n - 1, fill).l;
    RunHead(code, fill, l1, 1);
    if Step(code, l1, fill).Next? {
      RunHead(code, fill, Step(code, l1, fill).l, 0);
    }
  }

  /** As long as the flag is held, the steps of the system are the machine's own instructions and nothing else moves. */
  lemma {:induction false} HeldIsAtomic(code: seq<Insn>, fill: Fill, states: seq<Sys>, envs: seq<Env>, i: nat, l: Local, k: nat, n: nat)
    requires IsRun(code, fill, states, envs) && i + n < |states| && n <= k && HeldFor(code, fill, l, k)
    requires states[i].cur in states[i].vms && states[i].vms[states[i].cur].local == l
    ensures Run(code, l, n, fill).Next? && OnlyMoved(states[i], states[i + n], Run(code, l, n, fill).l)
    decreases n
  {
    hide Step, Run, UseOk, EnvOk, SysStep;
    RunHead(code, fill, l, 0);
    if n > 0 {
      var p := i + (n - 1);
      HeldIsAtomic(code, fill, states, envs, i, l, k, n - 1);
      assert Run(code, l, n, fill).Next?;
      RunLast(code, fill, l, n);
      assert Steps(code, fill, states[p], envs[p], states[p + 1]);
      AloneStep(code, states[p], envs[p], fill, Run(code, l, n, fill).l);
      MovedOn(states[i], states[p], states[p + 1], Run(code, l, n - 1, fill).l, Run(code, l, n, fill).l);
    }
  }

  // ---------- noint blocks of compiled functions ----------

  /** The state at the end of the block's statements, whether they end or return. */
  ghost predicate BlockEnd(m: Image, c: Ctx, st: Stmt, l: Local, l': Local, flow: Flow)
    requires st.NoInt?
  {
    if flow.Fall? then l'.ip == l.ip + 1 + LenAll(st.body) && At(m.code, l'.ip, IntI) else AtReturn(m, c, l', flow.v)
  }

  /** The code of a noint block, from NOINT to the block's own INT or to a return inside it. */
  lemma BlockRuns(m: Image, c: Ctx, st: Stmt, l: Local, s: St, fuel: nat) returns (k: nat, l': Local)
    requires SPre(m, c, st, l, s) && st.NoInt?
    requires ExecAll(m.w, c.f, st.body, s.(noint := s.noint.Raised()), l.sp, fuel).Ok?
    ensures k > 0 && Run(m.code, l, k, m.fill) == Next(l') && At(m.code, l.ip, NoIntI) && l.noint == s.noint
    ensures var (s1, flow) := ExecAll(m.w, c.f, st.body, s.(noint := s.noint.Raised()), l.sp, fuel).value;
      Match(c, l', s1) && BlockEnd(m, c, st, l, l', flow)
  {
    hide *;
    SParts(m, c, st, l, s);
    NoIntUnfold(m, c, st, l, s, fuel);
    StayMid(m, c, l, s);
    AtIs(m.code, l.ip, NoIntI);
    FlagChanges(NoIntI, s);
    var s0 := s.(noint := s.noint.Raised());
    var l1 := FlagStep(m, c, l, s, 0, l, s);
    MidReady(m, c, l, s, 1, l1, s0, 0);
    MkAPre(m, c, st.body, l1, s0);
    var k2, l2 := Simulation.SimAll(m, c, st.body, l1, s0, fuel);
    var q := ExecAll(m.w, c.f, st.body, s0, l.sp, fuel);
    SOpen(m, c, l1, l1.ip + LenAll(st.body), q, fuel, k2, l2);
    MidTrans(m, c, l, 1, l1, s0, k2, l2, q.value.0, 0, 0);
    k, l' := 1 + k2, l2;
    MidMatches(m, c, l, k, l', q.value.0);
    MatchFlag(c, l, s);
    EndIs(m, c, st, l, l', q.value.1);
  }

  lemma MidMatches(m: Image, c: Ctx, l: Local, k: nat, l': Local, s': St)
    requires Mid(m, c, l, k, l', s', 0)
    ensures Run(m.code, l, k, m.fill) == Next(l') && Match(c, l', s')
  {
    hide Match, Run, Keep;
  }

  lemma MatchFlag(c: Ctx, l: Local, s: St)
    requires Match(c, l, s)
    ensures l.noint == s.noint
  {
    hide Holds, Framed;
  }

  lemma EndIs(m: Image, c: Ctx, st: Stmt, l: Local, l': Local, flow: Flow)
    requires st.NoInt? && At(m.code, l.ip + 1 + LenAll(st.body), IntI)
    requires if flow.Fall? then l'.ip == l.ip + 1 + LenAll(st.body) else AtReturn(m, c, l', flow.v)
    ensures BlockEnd(m, c, st, l, l', flow)
  {
    hide AtReturn, At, LenAll;
  }

  /** A noint block of a compiled function runs k instructions up to its own INT, or up to the return inside it.  It is
      uninterruptible after every one of them if and only if the source's flag is at the end what the block made it
      at its beginning; and then these k instructions are k successive steps of the whole system, which change
      nothing but the state of the machine that runs the block, whatever the clock says. */
  lemma NoIntBlock(m: Image, c: Ctx, st: Stmt, l: Local, s: St, fuel: nat, states: seq<Sys>, envs: seq<Env>, i: nat)
    returns (k: nat, l': Local)
    requires SPre(m, c, st, l, s) && st.NoInt?
    requires ExecAll(m.w, c.f, st.body, s.(noint := s.noint.Raised()), l.sp, fuel).Ok?
    requires IsRun(m.code, m.fill, states, envs) && i < |states|
    requires states[i].cur in states[i].vms && states[i].vms[states[i].cur].local == l
    ensures k > 0 && Run(m.code, l, k, m.fill) == Next(l')
    ensures var (s1, flow) := ExecAll(m.w, c.f, st.body, s.(noint := s.noint.Raised()), l.sp, fuel).value;
      && Match(c, l', s1) && BlockEnd(m, c, st, l, l', flow)
      && (HeldFor(m.code, m.fill, l, k) <==> s1.noint == s.noint.Raised())
      && (s1.noint == s.noint.Raised() ==> forall n: nat :: n <= k && i + n < |states| ==>
            Run(m.code, l, n, m.fill).Next? && OnlyMoved(states[i], states[i + n], Run(m.code, l, n, m.fill).l))
  {
    hide *;
    k, l' := BlockRuns(m, c, st, l, s, fuel);
    var s1 := ExecAll(m.w, c.f, st.body, s.(noint := s.noint.Raised()), l.sp, fuel).value.0;
    MatchFlag(c, l', s1);
    AtIs(m.code, l.ip, NoIntI);
    HeldExactly(m.code, m.fill, l, k);
    if s1.noint == s.noint.Raised() {
      forall n: nat | n <= k && i + n < |states|
        ensures Run(m.code, l, n, m.fill).Next? && OnlyMoved(states[i], states[i + n], Run(m.code, l, n, m.fill).l)
      {
        HeldIsAtomic(m.code, m.fill, states, envs, i, l, k, n);
      }
    }
  }

  /** So a noint block without another one inside it, or in anything it calls, is atomic from NOINT to INT. */
  lemma QuietBlockIsAtomic(m: Image, c: Ctx, st: Stmt, l: Local, s: St, fuel: nat, gs: set<nat>,
                           states: seq<Sys>, envs: seq<Env>, i: nat) returns (k: nat, l': Local)
    requires SPre(m, c, st, l, s) && st.NoInt? && Flags.Closed(m.w.prog, gs) && Flags.QuietAll(st.body, gs)
    requires ExecAll(m.w, c.f, st.body, s.(noint := s.noint.Raised()), l.sp, fuel).Ok?
    requires IsRun(m.code, m.fill, states, envs) && i < |states|
    requires states[i].cur in states[i].vms && states[i].vms[states[i].cur].local == l
    ensures k > 0 && Run(m.code, l, k, m.fill) == Next(l')
    ensures var (s1, flow) := ExecAll(m.w, c.f, st.body, s.(noint := s.noint.Raised()), l.sp, fuel).value;
      Match(c, l', s1) && BlockEnd(m, c, st, l, l', flow)
    ensures forall n: nat :: n <= k && i + n < |states| ==>
              Run(m.code, l, n, m.fill).Next? && OnlyMoved(states[i], states[i + n], Run(m.code, l, n, m.fill).l)
  {
    hide *;
    Flags.NoIntHolds(m.w, gs, c.f, st.body, s, l.sp, fuel);
    k, l' := NoIntBlock(m, c, st, l, s, fuel, states, envs, i);
  }

  // ---------- nested blocks ----------

  /** The flag is one bit, not a count.  After a noint block inside another one the rest of the outer block runs with
      the flag clear, and as long as no further noint block is met it stays clear, to the end of the outer block. */
  lemma NestedNoIntEndsEarly(w: World, f: Func, s: St, sp: nat, fuel: nat, b: Stmts, rest: Stmts, gs: set<nat>)
    ensures var inner := ExecAll(w, f, b, s.(noint := s.noint.Raised()), sp, fuel);
      inner.Ok? && inner.value.1.Fall? ==>
        var s1 := inner.value.0.(noint := inner.value.0.noint.Lowered());
        var out := ExecAll(w, f, rest, s1, sp, fuel);
        && ExecAll(w, f, Cons(NoInt(b), rest), s, sp, fuel) == out
        && (Flags.Closed(w.prog, gs) && Flags.QuietAll(rest, gs) && out.Ok? ==> out.value.0.noint == s1.noint && !s1.noint.on)
  {
    hide Flags.Closed, Flags.QuietAll;
    var inner := ExecAll(w, f, b, s.(noint := s.noint.Raised()), sp, fuel);
    if inner.Ok? && inner.value.1.Fall? {
      var s1 := inner.value.0.(noint := inner.value.0.noint.Lowered());
      ConsExec(w, f, b, rest, s, sp, fuel);
      if Flags.Closed(w.prog, gs) && Flags.QuietAll(rest, gs) {
        Flags.FlagAll(w, gs, f, rest, s1, sp, fuel);
      }
    }
  }

  lemma ConsExec(w: World, f: Func, b: Stmts, rest: Stmts, s: St, sp: nat, fuel: nat)
    requires var inner := ExecAll(w, f, b, s.(noint := s.noint.Raised()), sp, fuel); inner.Ok? && inner.value.1.Fall?
    ensures var inner := ExecAll(w, f, b, s.(noint := s.noint.Raised()), sp, fuel).value.0;
      ExecAll(w, f, Cons(NoInt(b), rest), s, sp, fuel) == ExecAll(w, f, rest, inner.(noint := inner.noint.Lowered()), sp, fuel)
  {
    var inner := ExecAll(w, f, b, s.(noint := s.noint.Raised()), sp, fuel).value.0;
    assert Exec(w, f, NoInt(b), s, sp, fuel) == Ok((inner.(noint := inner.noint.Lowered()), Fall));
  }

  /** In the machine: statements without a noint block, entered with the flag clear, can be interrupted after every one
      of their instructions. */
  lemma QuietCodeIsInterruptible(m: Image, c: Ctx, ss: Stmts, l: Local, s: St, fuel: nat, gs: set<nat>)
    returns (k: nat, l': Local)
    requires APre(m, c, ss, l, s) && !s.noint.on && Flags.Closed(m.w.prog, gs) && Flags.QuietAll(ss, gs)
    requires ExecAll(m.w, c.f, ss, s, l.sp, fuel).Ok?
    ensures Run(m.code, l, k, m.fill) == Next(l') && Match(c, l', ExecAll(m.w, c.f, ss, s, l.sp, fuel).value.0)
    ensures forall n: nat :: n <= k ==> Run(m.code, l, n, m.fill).Next? && !Run(m.code, l, n, m.fill).l.noint.on
  {
    hide *;
    k, l' := Simulation.SimAll(m, c, ss, l, s, fuel);
    var q := ExecAll(m.w, c.f, ss, s, l.sp, fuel);
    SOpen(m, c, l, l.ip + LenAll(ss), q, fuel, k, l');
    MidMatches(m, c, l, k, l', q.value.0);
    MatchFlag(c, l', q.value.0);
    ReadyFlag(m, c, ss, l, s);
    Flags.FlagAll(m.w, gs, c.f, ss, s, l.sp, fuel);
    KeptIs(s, q);
    forall n: nat | n <= k ensures Run(m.code, l, n, m.fill).Next? && !Run(m.code, l, n, m.fill).l.noint.on {
      StaysClear(m.code, m.fill, l, n, k);
    }
  }

  lemma KeptIs(s: St, out: Outcome<(St, Flow)>)
    requires Flags.KeptFlow(s, out) && out.Ok?
    ensures out.value.0.noint == s.noint
  {
  }

  lemma ReadyFlag(m: Image, c: Ctx, ss: Stmts, l: Local, s: St)
    requires APre(m, c, ss, l, s)
    ensures l.noint == s.noint
  {
    hide Compiled, Within, PlacedAll, StmtsOk, PeakAll, Holds, Framed;
  }
}
