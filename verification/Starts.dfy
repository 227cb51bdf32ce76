/** What `q@start` tells, and which waits leave a quaint as `~` made it. */
module Starts {
  import opened Options
  import opened Bytes
  import opened Words
  import opened Ast
  import opened Insn
  import opened Machine
  import opened Quaint
  import opened ActiveChain
  import opened Protocol
  import opened Guarantees
  import Codegen
  import SimBase
  import SimStmts
  import Preservation
  import opened Noints
  import opened Schedules

  lemma StartStaysOff(code: seq<Insn>, l: Local, fill: Fill)
    requires Step(code, l, fill).Next? && !l.atStart
    ensures !Step(code, l, fill).l.atStart
  {
    HandlersKeepFlags();
    hide Get, Alu, AluCmp, AluUn, Bump, CastPat, Read, Write, Fresh, InBounds, Writable, UnLegal, WordTemp, Aligned8, IsWord;
    hide Store, Set, Load, StepIncDecP, StepPushR;
  }

  lemma {:induction false} RunClearsStart(code: seq<Insn>, fill: Fill, l0: Local, k: nat, l: Local)
    requires l0.ip < |code| && code[l0.ip].IncSp? && k > 0 && Run(code, l0, k, fill) == Next(l)
    ensures !l.atStart
    decreases k
  {
    hide Run;
    if k == 1 {
      NoStep(code, fill, l0);
      RunOne(code, fill, l0, 0, l0);
      FirstClears(code, fill, l0);
    } else {
      var n := Run(code, l0, k - 1, fill);
      if !n.Next? {
        RunStopped(code, l0, k - 1, k, fill);
      }
      RunClearsStart(code, fill, l0, k - 1, n.l);
      RunOne(code, fill, l0, k - 1, n.l);
      StartStaysOff(code, n.l, fill);
    }
  }

  lemma NoStep(code: seq<Insn>, fill: Fill, l0: Local)
    ensures Run(code, l0, 0, fill) == Next(l0)
  {
  }

  lemma FirstClears(code: seq<Insn>, fill: Fill, l0: Local)
    requires l0.ip < |code| && code[l0.ip].IncSp? && Step(code, l0, fill).Next?
    ensures !Step(code, l0, fill).l.atStart
  {
    hide Fresh;
  }

  lemma EntryIsIncSp(m: SimBase.Image, g: nat, l0: Local, vals: seq<int>)
    requires Preservation.Started(m, g, l0, vals)
    ensures l0.ip < |m.code| && m.code[l0.ip].IncSp?
  {
    hide *;
    Preservation.StartedParts(m, g, l0, vals);
    SimStmts.EntryFacts(m, g, l0, vals, l0.noint, l0.passed);
    FirstInsn(m.code, SimStmts.FuncCtx(m, g), l0.ip);
  }

  lemma FirstInsn(code: seq<Insn>, c: Codegen.Ctx, p: nat)
    requires DeclsOk(c.f) && Codegen.PlacedF(code, c, p)
    ensures p < |code| && code[p].IncSp?
  {
  }

  /** Until it has returned, a function's quaint is `@start` exactly as long as no instruction of it has been
      executed: then it is as the `~` operator left it. */
  lemma StartMeansUntouched(m: SimBase.Image, g: nat, l0: Local, vals: seq<int>,
      states: seq<Sys>, envs: seq<Env>, ch: seq<nat>, h: nat, j: nat)
    requires Preservation.Started(m, g, l0, vals) && g < |m.w.prog| && g < |m.w.locals| && Preservation.Defined(m, g, l0, vals)
    requires IsRun(m.code, m.fill, states, envs) && j < |states| && Inv(m.code, states[0], ch) && l0.atStart
    requires forall n :: 0 <= n <= j ==> h in states[n].vms
    requires !states[0].vms[h].atEnd && states[0].vms[h].waiting == NotWaiting && states[0].vms[h].local == l0
    ensures !states[j].vms[h].atEnd ==> (states[j].vms[h].local.atStart <==> states[j].vms[h].local == l0)
  {
    hide Preservation.Started, Preservation.Defined, IsRun, Inv, Run, PlainFunction;
    CompiledIsPlain(m, g, l0, vals);
    var k := ScheduleIndependence(m.code, m.fill, states, envs, ch, h, l0, j);
    if !states[j].vms[h].atEnd {
      NoStep(m.code, m.fill, l0);
      EntryIsIncSp(m, g, l0, vals);
      if k > 0 {
        RunClearsStart(m.code, m.fill, l0, k, states[j].vms[h].local);
      }
    }
  }

  // ---------- which waits leave a quaint untouched ----------

  /** The check right after a timed WAIT finds the time up. */
  predicate TimeUp(s: Sys, env: Env, l: Local, i: Insn)
    requires i.Wait?
  {
    i.timed && TimeoutOf(l, i.timeout).Some? &&
    var interval := Interval(TimeoutOf(l, i.timeout).value, i.seconds);
    if s.cycles % 200 == 0 then (env.checkClock % WORD - env.waitClock % WORD) % WORD >= interval else interval == 0
  }

  /** The time the check right after a WAIT goes by. */
  function CheckedAt(s: Sys, env: Env, i: Insn): nat
    requires i.Wait?
  {
    if s.cycles % 200 == 0 then env.checkClock % WORD else if i.timed then env.waitClock % WORD else s.now
  }

  /** Some machine above the running one may be resumed, and no noint up to it is set. */
  ghost predicate AnotherIsDue(vms: map<nat, Qvm>, ch: seq<nat>, now: nat) {
    exists j: nat :: ClearBelow(vms, ch, 0, j) && Resumable(vms, ch, j, now)
  }

  /** As `~` leaves a quaint of a function. */
  predicate Untried(v: Qvm) {
    !v.atEnd && !v.local.noint.on && v.local.passed == Label(0, 0) && v.local.atStart
  }

  /** What the WAIT itself does, before the check. */
  lemma WaitBegins(s: Sys, env: Env, i: Insn, h: nat, s1: Sys)
    requires i.Wait? && s.cur in s.vms && h in s.vms && h != s.cur && h != 0 && !s.vms[h].atEnd
    requires Handle(s.vms[s.cur].local, i.quaint) == Some(h) && ActWait(s, env, i) == Go(s1)
    ensures s1.cycles == s.cycles && h in s1.vms && s.cur in s1.vms
    ensures s1.vms[h].local == s.vms[h].local && !s1.vms[h].atEnd && s1.vms.Keys == s.vms.Keys
    ensures forall x :: x in s.vms && x != s.cur && x != h ==> s1.vms[x] == s.vms[x]
    ensures var tm := TimeoutOf(s.vms[s.cur].local, i.timeout);
      && (i.timed ==> tm.Some?)
      && if i.timed && tm.value == 0 then s1.cur == s.cur
         else
           && s1.cur == h && s1.now == (if i.timed then env.waitClock % WORD else s.now)
           && s1.vms[s.cur] == s.vms[s.cur].(waiting := s1.vms[s.cur].waiting)
           && s1.vms[s.cur].waiting == (if i.timed then For(env.waitClock % WORD, Interval(tm.value, i.seconds))
                                        else if i.lab.func != 0 then Until(i.lab) else Plain)
  {
    hide Handle, TimeoutOf;
  }

  lemma CheckReads(s: Sys, env: Env)
    requires s.cur in s.vms
    ensures Check(s, env).now == if s.cycles % 200 == 0 then env.checkClock % WORD else s.now
  {
    hide Walk;
  }

  /** After the descent the waiter is due exactly when its time is up: no label has been passed yet. */
  lemma WaiterDue(s: Sys, env: Env, i: Insn, h: nat, s1: Sys, now: nat)
    requires i.Wait? && s.cur in s.vms && h in s1.vms && s.cur in s1.vms && s1.vms[h].local.passed == Label(0, 0)
    requires var l := s.vms[s.cur].local;
      && (i.timed ==> TimeoutOf(l, i.timeout).Some?)
      && s1.vms[s.cur].waiting == (if i.timed then For(env.waitClock % WORD, Interval(TimeoutOf(l, i.timeout).value, i.seconds))
                                   else if i.lab.func != 0 then Until(i.lab) else Plain)
    requires now == CheckedAt(s, env, i)
    ensures Due(s1.vms, h, s.cur, now) <==> TimeUp(s, env, s.vms[s.cur].local, i)
  {
    hide TimeoutOf, Interval;
  }

  /** The chain below which the waiter now stands sees the same machines due as before. */
  lemma SameAbove(code: seq<Insn>, s: Sys, s1: Sys, ch: seq<nat>, ch1: seq<nat>, h: nat, j: nat, now: nat)
    requires Inv(code, s, ch) && Inv(code, s1, ch1) && s1.cur == h && |ch1| == |ch| + 1 && ch1[1..] == ch && h !in ch
    requires s1.vms.Keys == s.vms.Keys && s.cur in s.vms && h in s.vms && !s.vms[h].local.noint.on
    requires s1.vms[h].local == s.vms[h].local && s1.vms[s.cur].local == s.vms[s.cur].local
    requires forall x :: x in s.vms && x != s.cur && x != h ==> s1.vms[x] == s.vms[x]
    requires j > 0
    ensures Resumable(s1.vms, ch1, j + 1, now) <==> Resumable(s.vms, ch, j, now)
    ensures ClearBelow(s1.vms, ch1, 0, j + 1) <==> ClearBelow(s.vms, ch, 0, j)
  {
    CurFacts(code, s, ch);
    CurFacts(code, s1, ch1);
    hide *;
    forall k: nat | k < |ch| ensures ch1[k + 1] == ch[k] && ch[k] in ch {
      assert ch1[k + 1] == ch1[1..][k];
    }
    if j < |ch| {
      EndsDiffer(code, s, ch, j, 0);
      SameDue(s, s1, ch[j - 1], ch[j], now, h);
    }
    ResumableIs(s1.vms, ch1, j + 1, now);
    ResumableIs(s.vms, ch, j, now);
    forall k: nat ensures Interruptible(s1.vms, ch1, k + 1) <==> Interruptible(s.vms, ch, k) {
      SameInterruptible(s, s1, ch, ch1, h, k);
    }
    InterruptibleHead(s1.vms, ch1);
    ClearShifted(s.vms, s1.vms, ch, ch1, j);
  }

  lemma ResumableIs(vms: map<nat, Qvm>, ch: seq<nat>, j: nat, now: nat)
    ensures Resumable(vms, ch, j, now) <==> 0 < j < |ch| && ch[j - 1] in vms && ch[j] in vms && Due(vms, ch[j - 1], ch[j], now)
  {
    hide Due;
  }

  lemma InterruptibleHead(vms: map<nat, Qvm>, ch: seq<nat>)
    requires ch != [] && ch[0] in vms && !vms[ch[0]].local.noint.on
    ensures Interruptible(vms, ch, 0)
  {
  }

  lemma SameInterruptible(s: Sys, s1: Sys, ch: seq<nat>, ch1: seq<nat>, h: nat, k: nat)
    requires |ch1| == |ch| + 1 && (k < |ch| ==> ch1[k + 1] == ch[k] && ch[k] != h)
    requires s1.vms.Keys == s.vms.Keys && s.cur in s.vms && s1.vms[s.cur].local == s.vms[s.cur].local
    requires forall x :: x in s.vms && x != s.cur && x != h ==> s1.vms[x] == s.vms[x]
    ensures Interruptible(s1.vms, ch1, k + 1) <==> Interruptible(s.vms, ch, k)
  {
  }

  lemma ClearShifted(vms: map<nat, Qvm>, vms1: map<nat, Qvm>, ch: seq<nat>, ch1: seq<nat>, j: nat)
    requires Interruptible(vms1, ch1, 0) && forall k: nat :: Interruptible(vms1, ch1, k + 1) <==> Interruptible(vms, ch, k)
    ensures ClearBelow(vms1, ch1, 0, j + 1) <==> ClearBelow(vms, ch, 0, j)
  {
    hide Interruptible;
    if ClearBelow(vms1, ch1, 0, j + 1) {
      forall k: nat | k < j ensures Interruptible(vms, ch, k) {
        assert Interruptible(vms1, ch1, k + 1);
      }
    }
    if ClearBelow(vms, ch, 0, j) {
      forall k: nat | k < j + 1 ensures Interruptible(vms1, ch1, k) {
        if k > 0 {
          assert Interruptible(vms1, ch1, k - 1 + 1) <==> Interruptible(vms, ch, k - 1);
        }
      }
    }
  }

  lemma SameDue(s: Sys, s1: Sys, child: nat, x: nat, now: nat, h: nat)
    requires s1.vms.Keys == s.vms.Keys && s.cur in s.vms && x != s.cur && x != h && child != h
    requires s1.vms[s.cur].local == s.vms[s.cur].local
    requires forall x :: x in s.vms && x != s.cur && x != h ==> s1.vms[x] == s.vms[x]
    ensures child in s.vms && x in s.vms ==> (Due(s1.vms, child, x, now) <==> Due(s.vms, child, x, now))
  {
  }

  /** Which waits leave an untried quaint untouched: control passes to it if and only if, at the check that follows the
      WAIT, neither the waiter's time is up nor another waiting ancestor is due.  Either way nothing of it has been
      executed so far. */
  lemma WaitEnters(code: seq<Insn>, s: Sys, ch: seq<nat>, env: Env, fill: Fill, s': Sys, h: nat)
    requires Inv(code, s, ch) && Steps(code, fill, s, env, s')
    requires s.cur in s.vms && AtWait(code, s.vms[s.cur], h) && h in s.vms && Untried(s.vms[h])
    ensures var i, l := InsnAt(code, s.vms[s.cur].local), s.vms[s.cur].local;
      s'.cur != h <==> TimeUp(s, env, l, i) || AnotherIsDue(s.vms, ch, CheckedAt(s, env, i))
    ensures h in s'.vms && s'.vms[h].local == s.vms[h].local && !s'.vms[h].atEnd
  {
    hide *;
    var l, i := s.vms[s.cur].local, InsnAt(code, s.vms[s.cur].local);
    StepParts(code, s, env, fill, s');
    var s1 := Act(code, s, env, fill).s;
    CurFacts(code, s, ch);
    WaitNames(code, s, ch, env, fill, h);
    UntriedParts(s.vms[h]);
    var ch1 := ActKeepsInv(code, s, ch, env, fill, s1);
    WaitBegins(s, env, i, h, s1);
    var k := CheckKeepsInv(code, s1, ch1, env);
    CurFacts(code, s1, ch1);
    EndsApart(code, s1, ch1, k);
    CheckReads(s1, env);
    if s1.cur == h {
      ChainGrew(ch, ch1, h);
      CheckedIs(s, env, i);
      WaitEntered(code, s, ch, env, i, s1, ch1, h, k, s'.now);
    } else {
      ZeroIsUp(s, env, l, i);
      if k > 0 {
        ChoiceInChain(ch, ch1, k);
      }
    }
  }

  lemma StepParts(code: seq<Insn>, s: Sys, env: Env, fill: Fill, s': Sys)
    requires Steps(code, fill, s, env, s')
    ensures UseOk(code, s) && EnvOk(s, env) && Act(code, s, env, fill).Go? && s' == Check(Act(code, s, env, fill).s, env)
  {
    hide UseOk, EnvOk, Act, Check;
  }

  lemma UntriedParts(v: Qvm)
    requires Untried(v)
    ensures !v.atEnd && !v.local.noint.on && v.local.passed == Label(0, 0)
  {
  }

  lemma CheckedIs(s: Sys, env: Env, i: Insn)
    requires i.Wait?
    ensures CheckedAt(s, env, i) == if s.cycles % 200 == 0 then env.checkClock % WORD
                                    else if i.timed then env.waitClock % WORD else s.now
  {
  }

  /** The running machine executes its WAIT on h, which is no ancestor. */
  lemma WaitNames(code: seq<Insn>, s: Sys, ch: seq<nat>, env: Env, fill: Fill, h: nat)
    requires Inv(code, s, ch) && UseOk(code, s) && s.cur in s.vms && AtWait(code, s.vms[s.cur], h) && ch == ChainOf(s)
    ensures var i := InsnAt(code, s.vms[s.cur].local);
      && i.Wait? && Handle(s.vms[s.cur].local, i.quaint) == Some(h) && h != 0 && h != s.cur && h !in ch
      && Act(code, s, env, fill) == ActWait(s, env, i)
  {
    CurFacts(code, s, ch);
    StepExternal(code, s.vms[s.cur].local, fill);
    hide Inv, Step, WaitOk, ChainOf, Handle, ActWait;
    assert s.cur in ch;
  }

  lemma ChoiceInChain(ch: seq<nat>, ch1: seq<nat>, k: nat)
    requires 0 < k < |ch1|
    requires ch1 == ch || (|ch1| == |ch| + 1 && ch1[1..] == ch) || (|ch| > 1 && ch1 == ch[1..])
    ensures ch1[k] in ch
  {
    if |ch1| == |ch| + 1 {
      assert ch1[k] == ch1[1..][k - 1];
    }
  }

  lemma ChainGrew(ch: seq<nat>, ch1: seq<nat>, h: nat)
    requires ch1 != [] && ch1[0] == h && h !in ch
    requires ch1 == ch || (|ch1| == |ch| + 1 && ch1[1..] == ch) || (|ch| > 1 && ch1 == ch[1..])
    ensures |ch1| == |ch| + 1 && ch1[1..] == ch
  {
  }

  /** With the waiter above h, the check resumes somebody exactly when the waiter or a machine above it is due. */
  lemma WaitEntered(code: seq<Insn>, s: Sys, ch: seq<nat>, env: Env, i: Insn, s1: Sys, ch1: seq<nat>, h: nat, k: nat, now: nat)
    requires Inv(code, s, ch) && Inv(code, s1, ch1) && s1.cur == h && |ch1| == |ch| + 1 && ch1[1..] == ch && h !in ch
    requires i.Wait? && s.cur in s.vms && h in s.vms && !s.vms[h].local.noint.on && s.vms[h].local.passed == Label(0, 0)
    requires s1.vms.Keys == s.vms.Keys && s1.vms[h].local == s.vms[h].local && s1.vms[s.cur].local == s.vms[s.cur].local
    requires forall x :: x in s.vms && x != s.cur && x != h ==> s1.vms[x] == s.vms[x]
    requires var l := s.vms[s.cur].local;
      && (i.timed ==> TimeoutOf(l, i.timeout).Some?)
      && s1.vms[s.cur].waiting == (if i.timed then For(env.waitClock % WORD, Interval(TimeoutOf(l, i.timeout).value, i.seconds))
                                   else if i.lab.func != 0 then Until(i.lab) else Plain)
    requires now == CheckedAt(s, env, i)
    requires k > 0 ==> Nearest(s1.vms, ch1, 0, k, now)
    requires k == 0 ==> forall j: nat :: 0 < j && ClearBelow(s1.vms, ch1, 0, j) ==> !Resumable(s1.vms, ch1, j, now)
    ensures k > 0 <==> TimeUp(s, env, s.vms[s.cur].local, i) || AnotherIsDue(s.vms, ch, now)
  {
    hide Inv, TimeUp, TimeoutOf, Interval, Due;
    CurFacts(code, s, ch);
    CurFacts(code, s1, ch1);
    assert ch1[1] == ch1[1..][0] == s.cur;
    WaiterDue(s, env, i, h, s1, now);
    assert Interruptible(s1.vms, ch1, 0);
    assert ClearBelow(s1.vms, ch1, 0, 1);
    assert Resumable(s1.vms, ch1, 1, now) <==> TimeUp(s, env, s.vms[s.cur].local, i);
    hide Interruptible, Resumable, ClearBelow, ChainOf;
    if AnotherIsDue(s.vms, ch, now) {
      var j: nat :| ClearBelow(s.vms, ch, 0, j) && Resumable(s.vms, ch, j, now);
      ResumableAbove(s.vms, ch, j, now);
      SameAbove(code, s, s1, ch, ch1, h, j, now);
    }
    if k > 1 {
      SameAbove(code, s, s1, ch, ch1, h, k - 1, now);
    }
  }

  lemma ResumableAbove(vms: map<nat, Qvm>, ch: seq<nat>, j: nat, now: nat)
    requires Resumable(vms, ch, j, now)
    ensures 0 < j < |ch|
  {
  }

  lemma ZeroIsUp(s: Sys, env: Env, l: Local, i: Insn)
    requires i.Wait? && i.timed && TimeoutOf(l, i.timeout) == Some(0)
    ensures TimeUp(s, env, l, i)
  {
    hide TimeoutOf;
  }

  /** An instruction of the running machine that is an INCSP clears its start mark. */
  lemma EntryClearsStart(code: seq<Insn>, s: Sys, ch: seq<nat>, env: Env, fill: Fill, s': Sys)
    requires Inv(code, s, ch) && Steps(code, fill, s, env, s') && s.cur in s.vms
    requires var l := s.vms[s.cur].local; l.ip < |code| && code[l.ip].IncSp?
    ensures s.cur in s'.vms && !s'.vms[s.cur].local.atStart && !s'.vms[s.cur].atEnd
  {
    hide *;
    CurFacts(code, s, ch);
    StepParts(code, s, env, fill, s');
    var s1 := Act(code, s, env, fill).s;
    EntryActs(code, s, env, fill, s1);
    AliveIs(s.vms, s.cur);
    CheckKeepsStart(s1, env, s.cur);
  }

  lemma AliveIs(vms: map<nat, Qvm>, x: nat)
    requires Alive(vms, x)
    ensures x in vms && !vms[x].atEnd
  {
  }

  lemma EntryActs(code: seq<Insn>, s: Sys, env: Env, fill: Fill, s1: Sys)
    requires s.cur in s.vms && Act(code, s, env, fill) == Go(s1)
    requires var l := s.vms[s.cur].local; l.ip < |code| && code[l.ip].IncSp?
    ensures s.cur in s1.vms && !s1.vms[s.cur].local.atStart && s1.vms[s.cur].atEnd == s.vms[s.cur].atEnd
  {
    hide Fresh;
  }

  lemma CheckKeepsStart(s: Sys, env: Env, x: nat)
    requires x in s.vms
    ensures x in Check(s, env).vms && Check(s, env).vms[x].local.atStart == s.vms[x].local.atStart
    ensures Check(s, env).vms[x].atEnd == s.vms[x].atEnd
  {
    hide Walk;
  }

  /** `@start` is documented as "never waited on".  After a WAIT on an untried quaint of a function it still holds if and
      only if the check that follows finds the waiter's time up or another waiting ancestor due, which the clock
      readings and the flags before the WAIT decide; otherwise the quaint's first instruction ends it. */
  lemma WaitedYetUntouched(m: SimBase.Image, g: nat, vals: seq<int>, s: Sys, ch: seq<nat>, env: Env, s': Sys, env': Env, s'': Sys, h: nat)
    requires Inv(m.code, s, ch) && Steps(m.code, m.fill, s, env, s') && Steps(m.code, m.fill, s', env', s'')
    requires s.cur in s.vms && AtWait(m.code, s.vms[s.cur], h) && h in s.vms && Untried(s.vms[h])
    requires Preservation.Started(m, g, s.vms[h].local, vals)
    ensures var i, l := InsnAt(m.code, s.vms[s.cur].local), s.vms[s.cur].local;
      s'.cur != h <==> TimeUp(s, env, l, i) || AnotherIsDue(s.vms, ch, CheckedAt(s, env, i))
    ensures h in s'.vms && !s'.vms[h].atEnd && s'.vms[h].local == s.vms[h].local
    ensures s'.cur == h ==> h in s''.vms && !s''.vms[h].atEnd && !s''.vms[h].local.atStart
  {
    hide *;
    WaitEnters(m.code, s, ch, env, m.fill, s', h);
    if s'.cur == h {
      var ch' := StepKeepsInv(m.code, s, ch, env, m.fill, s');
      EntryIsIncSp(m, g, s.vms[h].local, vals);
      EntryClearsStart(m.code, s', ch', env', m.fill, s'');
    }
  }
}
