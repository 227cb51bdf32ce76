/** What noint keeps out: from NOINT to INT no ancestor executes anything. */
module Noints {
  import opened Options
  import opened Bytes
  import opened Words
  import opened Ast
  import opened Insn
  import opened Machine
  import opened Quaint
  import opened ActiveChain
  import opened Protocol
  import opened Guarantees

  // ---------- which instructions change the flag ----------

  lemma SetKeepsFlags(l: Local, o: Opd, v: nat)
    requires Writable(l, o)
    ensures Set(l, o, v).atStart == l.atStart && Set(l, o, v).noint == l.noint
  {
  }

  lemma StoreKeepsFlags(l: Local, legal: bool, dst: Opd, v: Option<nat>)
    ensures var n := Store(l, legal, dst, v);
      n.Next? ==> n.l.atStart == l.atStart && n.l.noint == l.noint
  {
    hide Set, Writable;
    if legal && v.Some? && Writable(l, dst) {
      SetKeepsFlags(l, dst, v.value);
    }
  }

  lemma PostfixKeepsFlags(l: Local, up: bool, dst: Opd, src: Opd)
    ensures var n := StepIncDecP(l, up, dst, src);
      n.Next? ==> n.l.atStart == l.atStart && n.l.noint == l.noint
  {
    hide Get, Bump, Write;
  }

  lemma PushRKeepsFlags(l: Local, retip: nat, ssp: Opd)
    ensures var n := StepPushR(l, retip, ssp);
      n.Next? ==> n.l.atStart == l.atStart && n.l.noint == l.noint
  {
    hide Write;
  }

  lemma HandlersKeepFlags()
    ensures forall l: Local, legal, dst, v ::
      (var n := Store(l, legal, dst, v); n.Next? ==> n.l.atStart == l.atStart && n.l.noint == l.noint)
    ensures forall l: Local, o, v :: Writable(l, o) ==> Set(l, o, v).atStart == l.atStart && Set(l, o, v).noint == l.noint
    ensures forall l: Local, up, dst, src ::
      (var n := StepIncDecP(l, up, dst, src); n.Next? ==> n.l.atStart == l.atStart && n.l.noint == l.noint)
    ensures forall l: Local, r, ssp ::
      (var n := StepPushR(l, r, ssp); n.Next? ==> n.l.atStart == l.atStart && n.l.noint == l.noint)
  {
    hide *;
    forall l: Local, legal, dst, v
      ensures var n := Store(l, legal, dst, v); n.Next? ==> n.l.atStart == l.atStart && n.l.noint == l.noint {
      StoreKeepsFlags(l, legal, dst, v);
    }
    forall l: Local, o, v | Writable(l, o) ensures Set(l, o, v).atStart == l.atStart && Set(l, o, v).noint == l.noint {
      SetKeepsFlags(l, o, v);
    }
    forall l: Local, up, dst, src
      ensures var n := StepIncDecP(l, up, dst, src); n.Next? ==> n.l.atStart == l.atStart && n.l.noint == l.noint {
      PostfixKeepsFlags(l, up, dst, src);
    }
    forall l: Local, r, ssp
      ensures var n := StepPushR(l, r, ssp); n.Next? ==> n.l.atStart == l.atStart && n.l.noint == l.noint {
      PushRKeepsFlags(l, r, ssp);
    }
  }

  /** What one instruction does to the flag of its machine. */
  function FlagAfter(i: Insn, n: Flag): Flag {
    if i == NoIntI then n.Raised() else if i == IntI then n.Lowered() else n
  }

  /** Only NOINT and INT change the flag. */
  lemma StepFlag(code: seq<Insn>, l: Local, fill: Fill)
    requires Step(code, l, fill).Next?
    ensures l.ip < |code| && Step(code, l, fill).l.noint == FlagAfter(code[l.ip], l.noint)
  {
    HandlersKeepFlags();
    hide Get, Alu, AluCmp, AluUn, Bump, CastPat, Read, Write, Fresh, InBounds, Writable, UnLegal, WordTemp, Aligned8, IsWord;
    hide Store, Set, Load, StepIncDecP, StepPushR;
  }

  // ---------- the flag in the whole system ----------

  /** x lives on, and its flag is f. */
  predicate Flagged(vms: map<nat, Qvm>, x: nat, f: Flag) {
    Alive(vms, x) && vms[x].local.noint == f
  }

  /** What the next instruction of the system makes of x's flag. */
  function NextFlag(code: seq<Insn>, s: Sys, x: nat): Flag
    requires x in s.vms
  {
    if x == s.cur then FlagAfter(InsnAt(code, s.vms[x].local), s.vms[x].local.noint) else s.vms[x].local.noint
  }

  /** x executes the return of its outermost frame. */
  predicate Returns(code: seq<Insn>, fill: Fill, s: Sys, x: nat) {
    s.cur == x && x in s.vms && Step(code, s.vms[x].local, fill).Finished?
  }

  lemma WaitFlag(s: Sys, env: Env, i: Insn, s1: Sys, x: nat)
    requires i.Wait? && s.cur in s.vms && ActWait(s, env, i) == Go(s1) && Alive(s.vms, x)
    ensures Flagged(s1.vms, x, s.vms[x].local.noint)
  {
    hide Handle, TimeoutOf;
  }

  lemma ReapFlag(s: Sys, dst: Option<Opd>, q: Opd, s1: Sys, x: nat)
    requires s.cur in s.vms && ActReap(s, dst, q) == Go(s1) && Alive(s.vms, x)
    ensures Flagged(s1.vms, x, s.vms[x].local.noint)
  {
    hide Handle, Set, Get, Read, Writable;
    var l := s.vms[s.cur].local;
    if dst.Some? {
      forall v | Writable(l, dst.value) ensures Set(l, dst.value, v).noint == l.noint {
        SetKeepsFlags(l, dst.value, v);
      }
    }
    forall l1 | Writable(l1, q) ensures Set(l1, q, 0).noint == l1.noint {
      SetKeepsFlags(l1, q, 0);
    }
  }

  lemma SpawnFlag(s: Sys, env: Env, i: Insn, s1: Sys, x: nat)
    requires s.cur in s.vms && env.addr !in s.vms && Alive(s.vms, x)
    requires (i.Qat? && ActQat(s, i) == Go(s1)) || (i.Qnt? && ActQnt(s, env, i) == Go(s1))
             || (i.QntV? && ActQntV(s, env, i) == Go(s1))
    ensures Flagged(s1.vms, x, s.vms[x].local.noint)
  {
    hide Handle, Set, Get, Write, Spawned, Zeros, Writable;
    var l := s.vms[s.cur].local;
    forall v | Writable(l, i.dst) ensures Set(l, i.dst, v).noint == l.noint {
      SetKeepsFlags(l, i.dst, v);
    }
  }

  lemma ReturnFlag(code: seq<Insn>, s: Sys, l: Local, size: nat, val: nat, s1: Sys, x: nat)
    requires s.cur in s.vms && ActReturn(code, s, l, size, val) == Go(s1) && Alive(s.vms, x) && x != s.cur
    ensures Flagged(s1.vms, x, s.vms[x].local.noint)
  {
    hide Handle, Set, Get, Write, Writable;
    forall l1, o, v | Writable(l1, o) ensures Set(l1, o, v).noint == l1.noint {
      SetKeepsFlags(l1, o, v);
    }
  }

  lemma OtherInsns(code: seq<Insn>, l: Local, fill: Fill)
    ensures Step(code, l, fill) == External ==> InsnAt(code, l) != NoIntI && InsnAt(code, l) != IntI
    ensures Step(code, l, fill).Next? ==> l.ip < |code| && InsnAt(code, l) == code[l.ip]
  {
    hide Store, Set, Load, StepIncDecP, StepPushR, Get, Write;
  }

  lemma ActFlag(code: seq<Insn>, s: Sys, env: Env, fill: Fill, s1: Sys, x: nat)
    requires EnvOk(s, env) && Act(code, s, env, fill) == Go(s1) && Alive(s.vms, x) && !Returns(code, fill, s, x)
    ensures Flagged(s1.vms, x, NextFlag(code, s, x))
  {
    hide Step, ActWait, ActReap, ActQat, ActQnt, ActQntV, ActReturn;
    var l := s.vms[s.cur].local;
    OtherInsns(code, l, fill);
    match Step(code, l, fill)
    case Next(_) => StepFlag(code, l, fill);
    case Finished(l1, size, val) => ReturnFlag(code, s, l1, size, val, s1, x);
    case External =>
      match InsnAt(code, l) {
        case Wait(_, _, _, _, _) => WaitFlag(s, env, code[l.ip], s1, x);
        case Rte(q) => ReapFlag(s, None, q, s1, x);
        case RteV(dst, q) => ReapFlag(s, Some(dst), q, s1, x);
        case Qat(_, _, _) => SpawnFlag(s, env, code[l.ip], s1, x);
        case Qnt(_, _, _) => SpawnFlag(s, env, code[l.ip], s1, x);
        case QntV(_, _) => SpawnFlag(s, env, code[l.ip], s1, x);
        case _ => assert false;
      }
    case Illegal => assert false;
    case Fault => assert false;
  }

  lemma CheckFlag(s: Sys, env: Env, x: nat, f: Flag)
    requires Flagged(s.vms, x, f)
    ensures Flagged(Check(s, env).vms, x, f)
  {
    hide Walk;
  }

  /** A machine lives until it returns, and its flag changes only when it is the running one and executes NOINT or INT. */
  lemma SystemFlag(code: seq<Insn>, s: Sys, env: Env, fill: Fill, s': Sys, x: nat)
    requires Steps(code, fill, s, env, s') && Alive(s.vms, x) && !Returns(code, fill, s, x)
    ensures Alive(s'.vms, x) && s'.vms[x].local.noint == NextFlag(code, s, x)
  {
    hide UseOk, EnvOk, Act, Check, NextFlag, Returns;
    var s1 := Act(code, s, env, fill).s;
    ActFlag(code, s, env, fill, s1, x);
    CheckFlag(s1, env, x, NextFlag(code, s, x));
  }

  // ---------- from NOINT to INT ----------

  /** x lives with noint set in the states after the i-th, up to the j-th. */
  ghost predicate Uninterruptible(states: seq<Sys>, x: nat, i: nat, j: nat) {
    forall n: nat :: i < n <= j && n < |states| ==> Alive(states[n].vms, x) && states[n].vms[x].local.noint.on
  }

  /** As long as x holds the flag, the running machine is x itself or one below it, and every machine above x is
      untouched. */
  lemma {:induction false} HeldSafety(code: seq<Insn>, fill: Fill, states: seq<Sys>, envs: seq<Env>, ch: seq<nat>,
                                      i: nat, m: nat, j: nat) returns (m': nat)
    requires IsRun(code, fill, states, envs) && i <= j < |states| && Inv(code, states[i], ch) && m < |ch|
    requires Uninterruptible(states, ch[m], i, j)
    ensures Inv(code, states[j], ChainOf(states[j]))
    ensures m' < |ChainOf(states[j])| && ChainOf(states[j])[m'..] == ch[m..]
    ensures forall a :: m < a < |ch| ==>
              ch[a] != states[j].cur && ch[a] in states[i].vms && ch[a] in states[j].vms
              && states[j].vms[ch[a]] == states[i].vms[ch[a]]
    decreases j
  {
    hide Inv, ChainOf, Steps;
    CurFacts(code, states[i], ch);
    if i == j {
      m' := m;
      forall a | m < a < |ch| ensures ch[a] != states[j].cur && ch[a] in states[i].vms {
        EndsDiffer(code, states[i], ch, a, 0);
        ChainReading(code, states[i], ch, a);
      }
    } else {
      assert Uninterruptible(states, ch[m], i, j - 1);
      var m1 := HeldSafety(code, fill, states, envs, ch, i, m, j - 1);
      assert Steps(code, fill, states[j - 1], envs[j - 1], states[j - 1 + 1]);
      var ch1 := ChainOf(states[j - 1]);
      assert ch1[m1] == ch1[m1..][0] == ch[m..][0] == ch[m];
      assert Alive(states[j].vms, ch[m]) && states[j].vms[ch[m]].local.noint.on;
      m' := NoIntStep(code, states[j - 1], ch1, m1, envs[j - 1], fill, states[j]);
      Above(code, states[j], ChainOf(states[j]), m', ch, m);
      forall a | m < a < |ch|
        ensures ch[a] in states[j].vms && ch[a] in states[j - 1].vms && states[j].vms[ch[a]] == states[j - 1].vms[ch[a]]
      {
        assert ch[a] == ch[m..][a - m] == ch1[m1..][a - m] == ch1[m1 + (a - m)];
      }
    }
  }

  lemma Above(code: seq<Insn>, s: Sys, chs: seq<nat>, m': nat, ch: seq<nat>, m: nat)
    requires Inv(code, s, chs) && m' < |chs| && m < |ch| && chs[m'..] == ch[m..]
    ensures forall a :: m < a < |ch| ==> ch[a] != s.cur
  {
    hide Inv;
    CurFacts(code, s, chs);
    forall a | m < a < |ch| ensures ch[a] != s.cur {
      assert ch[a] == ch[m..][a - m] == chs[m'..][a - m] == chs[m' + (a - m)];
      EndsDiffer(code, s, chs, m' + (a - m), 0);
    }
  }

  /** x executes neither INT nor its return. */
  predicate KeepsTheBlock(code: seq<Insn>, fill: Fill, s: Sys, x: nat) {
    s.cur == x && x in s.vms ==> InsnAt(code, s.vms[x].local) != IntI && !Returns(code, fill, s, x)
  }

  lemma {:induction false} BlockHeld(code: seq<Insn>, fill: Fill, states: seq<Sys>, envs: seq<Env>, i: nat, j: nat, x: nat)
    requires IsRun(code, fill, states, envs) && i < j < |states| && Alive(states[i].vms, x) && states[i].cur == x
    requires InsnAt(code, states[i].vms[x].local) == NoIntI
    requires forall n: nat :: i < n < j ==> KeepsTheBlock(code, fill, states[n], x)
    ensures Uninterruptible(states, x, i, j)
    decreases j
  {
    hide Steps, InsnAt, Returns, KeepsTheBlock;
    var p := j - 1;
    assert Steps(code, fill, states[p], envs[p], states[p + 1]);
    if p == i {
      NoIntNeverReturns(code, fill, states[p], x);
      SystemFlag(code, states[p], envs[p], fill, states[j], x);
    } else {
      BlockHeld(code, fill, states, envs, i, p, x);
      assert KeepsTheBlock(code, fill, states[p], x);
      LivesOn(code, fill, states[p], x);
      SystemFlag(code, states[p], envs[p], fill, states[j], x);
    }
  }

  lemma NoIntNeverReturns(code: seq<Insn>, fill: Fill, s: Sys, x: nat)
    requires s.cur == x && x in s.vms && InsnAt(code, s.vms[x].local) == NoIntI
    ensures !Returns(code, fill, s, x)
  {
  }

  lemma LivesOn(code: seq<Insn>, fill: Fill, s: Sys, x: nat)
    requires KeepsTheBlock(code, fill, s, x) && Alive(s.vms, x)
    ensures x in s.vms && !Returns(code, fill, s, x) && (s.cur == x ==> InsnAt(code, s.vms[x].local) != IntI)
  {
    hide InsnAt, Step;
  }

  lemma ChainIsThere(code: seq<Insn>, s: Sys, ch: seq<nat>)
    requires Inv(code, s, ch)
    ensures ch != []
  {
  }

  /** From the NOINT that x executes until it executes INT or returns, no ancestor executes an instruction, whatever
      the clock says and whatever the block calls or waits for: throughout, the running machine is x or one below
      it, and the state of every machine above x is untouched. */
  lemma NoIntSafety(code: seq<Insn>, fill: Fill, states: seq<Sys>, envs: seq<Env>, ch: seq<nat>, i: nat, j: nat, x: nat)
    returns (m: nat)
    requires IsRun(code, fill, states, envs) && i < j < |states| && Inv(code, states[i], ch)
    requires states[i].cur == x && x in states[i].vms && InsnAt(code, states[i].vms[x].local) == NoIntI
    requires forall n: nat :: i < n < j ==> KeepsTheBlock(code, fill, states[n], x)
    ensures Alive(states[j].vms, x) && states[j].vms[x].local.noint.on
    ensures Inv(code, states[j], ChainOf(states[j])) && m < |ChainOf(states[j])| && ChainOf(states[j])[m..] == ch
    ensures forall a :: 0 < a < |ch| ==>
              ch[a] != states[j].cur && ch[a] in states[i].vms && ch[a] in states[j].vms
              && states[j].vms[ch[a]] == states[i].vms[ch[a]]
  {
    hide IsRun, Inv, ChainOf, InsnAt, KeepsTheBlock;
    CurFacts(code, states[i], ch);
    ChainIsThere(code, states[i], ch);
    BlockHeld(code, fill, states, envs, i, j, x);
    m := HeldSafety(code, fill, states, envs, ch, i, 0, j);
    assert ch[0..] == ch;
  }
}
