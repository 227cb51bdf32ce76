/** The invariant of the active chain over every instruction and every run, whatever the clock says. */
module Protocol {
  import opened Options
  import opened Bytes
  import opened Words
  import opened Ast
  import opened Insn
  import opened Machine
  import opened Quaint
  import opened ActiveChain

  lemma ReapActs(code: seq<Insn>, s: Sys, ch: seq<nat>, dst: Option<Opd>, q: Opd, s': Sys) returns (ch': seq<nat>)
    requires Inv(code, s, ch) && UseOk(code, s) && s.cur in s.vms
    requires InsnAt(code, s.vms[s.cur].local) == if dst.Some? then RteV(dst.value, q) else Rte(q)
    requires ActReap(s, dst, q) == Go(s')
    ensures Inv(code, s', ch') && (ch' == ch || (|ch'| == |ch| + 1 && ch'[1..] == ch))
  {
    CurFacts(code, s, ch);
    InvZero(code, s, ch);
    hide Inv, WaitOk, ChainOf, Set, Get, Read;
    var v := s.vms[s.cur];
    var h := Handle(v.local, q);
    if v.waiting != NotWaiting {
      WaitFacts(code, s.vms, s.cur);
    }
    if h.value == 0 || s.vms[h.value].atEnd {
      ch' := ch;
      PrivateStep(code, s, ch, s');
    } else {
      ch' := [h.value] + ch;
      DescendStep(code, s, ch, h.value, v.waiting, s.now);
    }
  }

  lemma QatActs(code: seq<Insn>, s: Sys, ch: seq<nat>, i: Insn, s': Sys)
    requires Inv(code, s, ch) && s.cur in s.vms
    requires InsnAt(code, s.vms[s.cur].local) == i && i.Qat? && ActQat(s, i) == Go(s')
    ensures Inv(code, s', ch)
  {
    CurFacts(code, s, ch);
    InvZero(code, s, ch);
    hide Inv, WaitOk, Set, Get;
    if s.vms[s.cur].waiting != NotWaiting {
      WaitFacts(code, s.vms, s.cur);
    }
    PrivateStep(code, s, ch, s');
  }

  lemma SpawnActs(code: seq<Insn>, s: Sys, ch: seq<nat>, env: Env, i: Insn, s': Sys)
    requires Inv(code, s, ch) && EnvOk(s, env) && s.cur in s.vms
    requires InsnAt(code, s.vms[s.cur].local) == i && (i.Qnt? || i.QntV?)
    requires (if i.Qnt? then ActQnt(s, env, i) else ActQntV(s, env, i)) == Go(s')
    ensures Inv(code, s', ch)
  {
    CurFacts(code, s, ch);
    InvZero(code, s, ch);
    hide Inv, WaitOk, Set, Get, Write, Spawned, Zeros;
    if s.vms[s.cur].waiting != NotWaiting {
      WaitFacts(code, s.vms, s.cur);
    }
    PrivateStep(code, s, ch, s');
  }

  lemma ReturnActs(code: seq<Insn>, s: Sys, ch: seq<nat>, l: Local, size: nat, val: nat, s': Sys)
    requires Inv(code, s, ch) && s.cur in s.vms && s.vms[s.cur].waiting == NotWaiting
    requires ActReturn(code, s, l, size, val) == Go(s')
    ensures |ch| > 1 && Inv(code, s', ch[1..]) && (s.cur in s'.vms ==> s'.vms[s.cur].atEnd)
  {
    CurFacts(code, s, ch);
    InvZero(code, s, ch);
    ParentIsNext(code, s, ch);
    hide Inv, WaitOk, Set, Get, Write;
    var p := ch[1];
    if !InsnAt(code, s.vms[p].local).Wait? && s.vms[p].waiting != NotWaiting {
      WaitFacts(code, s.vms, p);
    }
    AscendStep(code, s, ch, s');
  }

  lemma ParentIsNext(code: seq<Insn>, s: Sys, ch: seq<nat>)
    requires Inv(code, s, ch) && s.cur in s.vms
    ensures s.vms[s.cur].parent == if |ch| > 1 then Some(ch[1]) else None
    ensures |ch| > 1 ==> ch[1] in s.vms && Alive(s.vms, ch[1]) && ch[1] != s.cur && WaitOk(code, s.vms, ch[1])
                         && Suspended(code, s.vms, s.cur, ch[1])
  {
    hide WaitOk;
    if |ch| > 1 {
      ChainMembers(code, s, ch, 1);
    }
  }

  lemma StepExternal(code: seq<Insn>, l: Local, fill: Fill)
    requires InsnAt(code, l).Wait? || InsnAt(code, l).Rte? || InsnAt(code, l).RteV?
    ensures Step(code, l, fill) == External
  {
  }

  lemma LocalActs(code: seq<Insn>, s: Sys, ch: seq<nat>, l1: Local, fill: Fill)
    requires Inv(code, s, ch) && s.cur in s.vms && Step(code, s.vms[s.cur].local, fill) == Next(l1)
    ensures Inv(code, Put(s, s.cur, s.vms[s.cur].(local := l1)), ch)
  {
    CurFacts(code, s, ch);
    InvZero(code, s, ch);
    hide Inv, WaitOk, Step;
    if s.vms[s.cur].waiting != NotWaiting {
      WaitFacts(code, s.vms, s.cur);
      StepExternal(code, s.vms[s.cur].local, fill);
    }
    PrivateStep(code, s, ch, Put(s, s.cur, s.vms[s.cur].(local := l1)));
  }

  /** One instruction, before the pre-emption check: the chain stays, grows by one machine or loses its first. */
  lemma ActKeepsInv(code: seq<Insn>, s: Sys, ch: seq<nat>, env: Env, fill: Fill, s': Sys) returns (ch': seq<nat>)
    requires Inv(code, s, ch) && UseOk(code, s) && EnvOk(s, env) && Act(code, s, env, fill) == Go(s')
    ensures Inv(code, s', ch')
    ensures ch' == ch || (|ch'| == |ch| + 1 && ch'[1..] == ch) || (|ch| > 1 && ch' == ch[1..])
    ensures |ch'| < |ch| && s.cur in s'.vms ==> s'.vms[s.cur].atEnd
  {
    CurFacts(code, s, ch);
    hide Inv, WaitOk, Step, UseOk, EnvOk, ChainOf, ActWait, ActReap, ActQat, ActQnt, ActQntV, ActReturn;
    var l := s.vms[s.cur].local;
    ch' := ch;
    match Step(code, l, fill)
    case Next(l1) => LocalActs(code, s, ch, l1, fill);
    case Finished(l1, size, val) =>
      if s.vms[s.cur].waiting != NotWaiting {
        WaitFacts(code, s.vms, s.cur);
        StepExternal(code, l, fill);
      }
      ReturnActs(code, s, ch, l1, size, val, s');
      ch' := ch[1..];
    case External =>
      match InsnAt(code, l) {
        case Wait(_, _, _, _, _) => ch' := WaitActs(code, s, ch, env, code[l.ip], s');
        case Rte(q) => ch' := ReapActs(code, s, ch, None, q, s');
        case RteV(dst, q) => ch' := ReapActs(code, s, ch, Some(dst), q, s');
        case Qat(_, _, _) => QatActs(code, s, ch, code[l.ip], s');
        case Qnt(_, _, _) => SpawnActs(code, s, ch, env, code[l.ip], s');
        case QntV(_, _) => SpawnActs(code, s, ch, env, code[l.ip], s');
        case _ => assert false;
      }
    case Illegal => assert false;
    case Fault => assert false;
  }

  // ---------- pre-emption ----------

  /** The j-th machine of the chain lets itself be interrupted. */
  predicate Interruptible(vms: map<nat, Qvm>, ch: seq<nat>, j: nat) {
    j < |ch| && ch[j] in vms && !vms[ch[j]].local.noint.on
  }

  /** The j-th machine of the chain waits for a time that is over or a label its child has passed. */
  predicate Resumable(vms: map<nat, Qvm>, ch: seq<nat>, j: nat, now: nat) {
    0 < j < |ch| && ch[j - 1] in vms && ch[j] in vms && Due(vms, ch[j - 1], ch[j], now)
  }

  predicate ClearBelow(vms: map<nat, Qvm>, ch: seq<nat>, i: nat, k: nat) {
    forall j: nat :: i <= j < k ==> Interruptible(vms, ch, j)
  }

  /** The machine a split resumes: the nearest resumable one with everything below it interruptible. */
  predicate Nearest(vms: map<nat, Qvm>, ch: seq<nat>, i: nat, k: nat, now: nat) {
    && i < k && Resumable(vms, ch, k, now) && ClearBelow(vms, ch, i, k)
    && forall j: nat :: i < j < k ==> !Resumable(vms, ch, j, now)
  }

  lemma {:induction false} WalkFinds(code: seq<Insn>, s: Sys, ch: seq<nat>, i: nat, now: nat, fuel: nat)
    returns (k: nat)
    requires Chain(code, s, ch) && i < |ch|
    ensures ch[i] in s.vms
    ensures Walk(s.vms, ch[i], now, fuel).Some? ==>
              Nearest(s.vms, ch, i, k, now) && Walk(s.vms, ch[i], now, fuel) == Some(ch[k])
    ensures Walk(s.vms, ch[i], now, fuel).None? && fuel >= |ch| - i ==>
              forall j: nat :: i < j && ClearBelow(s.vms, ch, i, j) ==> !Resumable(s.vms, ch, j, now)
    decreases |ch| - i
  {
    hide Due, Chain;
    ChainMembers(code, s, ch, i);
    k := 0;
    if i < |ch| - 1 {
      ChainMembers(code, s, ch, i + 1);
      assert s.vms[ch[i]].parent == Some(ch[i + 1]);
      if fuel > 0 && !s.vms[ch[i]].local.noint.on {
        assert Interruptible(s.vms, ch, i);
        if Due(s.vms, ch[i], ch[i + 1], now) {
          k := i + 1;
        } else {
          k := WalkFinds(code, s, ch, i + 1, now, fuel - 1);
          assert !Resumable(s.vms, ch, i + 1, now);
        }
      }
      forall j: nat | i < j && ClearBelow(s.vms, ch, i, j) && Walk(s.vms, ch[i], now, fuel).None? && fuel >= |ch| - i
        ensures !Resumable(s.vms, ch, j, now)
      {
        assert Interruptible(s.vms, ch, i);
        assert ClearBelow(s.vms, ch, i + 1, j);
      }
    } else {
      LastHasNoParent(code, s, ch);
    }
  }

  lemma LastHasNoParent(code: seq<Insn>, s: Sys, ch: seq<nat>)
    requires Chain(code, s, ch)
    ensures ch != [] && ch[|ch| - 1] in s.vms && s.vms[ch[|ch| - 1]].parent == None
  {
    assert Alive(s.vms, ch[|ch| - 1]);
  }

  /** After the check either nothing but the clock has moved, or the nearest due ancestor runs. */
  lemma CheckKeepsInv(code: seq<Insn>, s: Sys, ch: seq<nat>, env: Env) returns (k: nat)
    requires Inv(code, s, ch)
    ensures k < |ch| && Inv(code, Check(s, env), ch[k..])
    ensures k == 0 ==> Check(s, env).vms == s.vms && Check(s, env).cur == s.cur
    ensures k > 0 ==> Nearest(s.vms, ch, 0, k, Check(s, env).now)
    ensures k == 0 ==> forall j: nat :: 0 < j && ClearBelow(s.vms, ch, 0, j) ==> !Resumable(s.vms, ch, j, Check(s, env).now)
    ensures k > 0 ==> ch[k] in s.vms && Check(s, env).cur == ch[k]
    ensures k > 0 ==> Check(s, env).vms ==
                      s.vms[ch[k] := s.vms[ch[k]].(waiting := NotWaiting, local := Advance(s.vms[ch[k]].local))]
  {
    CurFacts(code, s, ch);
    InvZero(code, s, ch);
    InvChain(code, s, ch);
    var s' := Check(s, env);
    k := WalkFinds(code, s, ch, 0, s'.now, |s.vms|);
    ChainFits(code, s, ch);
    if Walk(s.vms, s.cur, s'.now, |s.vms|).None? {
      k := 0;
      assert ch[0..] == ch;
      SameInv(code, s, s', ch);
    } else {
      SplitInv(code, s, ch, k, s');
    }
  }

  lemma ChainFits(code: seq<Insn>, s: Sys, ch: seq<nat>)
    requires Chain(code, s, ch)
    ensures |ch| <= |s.vms|
  {
    forall i | 0 <= i < |ch| ensures ch[i] in s.vms {
      assert Alive(s.vms, ch[i]);
    }
    DistinctFits(ch, s.vms);
  }

  lemma InvChain(code: seq<Insn>, s: Sys, ch: seq<nat>)
    requires Inv(code, s, ch)
    ensures Chain(code, s, ch)
  {
  }

  lemma SameInv(code: seq<Insn>, s: Sys, s': Sys, ch: seq<nat>)
    requires Inv(code, s, ch) && s'.vms == s.vms && s'.cur == s.cur
    ensures Inv(code, s', ch)
  {
  }

  lemma SplitInv(code: seq<Insn>, s: Sys, ch: seq<nat>, k: nat, s': Sys)
    requires Inv(code, s, ch) && 0 < k < |ch| && ch[k] in s.vms
    requires s'.cur == ch[k]
    requires s'.vms == s.vms[ch[k] := s.vms[ch[k]].(waiting := NotWaiting, local := Advance(s.vms[ch[k]].local))]
    ensures Inv(code, s', ch[k..])
  {
    hide WaitOk, InsnAt, Handle, Suspended;
    InvChain(code, s, ch);
    ChainMembers(code, s, ch, k);
    forall j | k < j < |ch| ensures ch[j] in s'.vms && ch[j] in s.vms && s'.vms[ch[j]] == s.vms[ch[j]] {
      ChainMembers(code, s, ch, j);
    }
    ChainKept(code, s, ch, s', k);
    forall y | y in s'.vms ensures WaitOk(code, s'.vms, y) {
      if y == ch[k] {
        NotWaitingOk(code, s'.vms, y);
      } else {
        if s.vms[y].waiting != NotWaiting {
          WaitFacts(code, s.vms, y);
        }
        WaitKept(code, s.vms, s'.vms, y);
      }
    }
  }

  // ---------- whole runs ----------

  /** Every instruction of a run, with the ownership rules kept and fresh addresses for new machines. */
  ghost predicate IsRun(code: seq<Insn>, fill: Fill, states: seq<Sys>, envs: seq<Env>) {
    && |states| == |envs| + 1
    && forall i :: 0 <= i < |envs| ==> Steps(code, fill, states[i], envs[i], states[i + 1])
  }

  ghost predicate Steps(code: seq<Insn>, fill: Fill, s: Sys, env: Env, s': Sys) {
    UseOk(code, s) && EnvOk(s, env) && SysStep(code, s, env, fill) == Go(s')
  }

  lemma StepKeepsInv(code: seq<Insn>, s: Sys, ch: seq<nat>, env: Env, fill: Fill, s': Sys) returns (ch': seq<nat>)
    requires Inv(code, s, ch) && Steps(code, fill, s, env, s')
    ensures Inv(code, s', ch')
  {
    hide Inv, UseOk, EnvOk, Act, Check;
    var s1 := Act(code, s, env, fill).s;
    var ch1 := ActKeepsInv(code, s, ch, env, fill, s1);
    var k := CheckKeepsInv(code, s1, ch1, env);
    ch' := ch1[k..];
  }

  /** The active-chain invariant holds in every state of every run, for every clock. */
  lemma {:induction false} RunKeepsInv(code: seq<Insn>, fill: Fill, states: seq<Sys>, envs: seq<Env>, ch: seq<nat>, i: nat)
    requires IsRun(code, fill, states, envs) && i < |states| && Inv(code, states[0], ch)
    ensures Inv(code, states[i], ChainOf(states[i]))
    decreases i
  {
    hide Inv, Steps, ChainOf;
    if i == 0 {
      CurFacts(code, states[0], ch);
    } else {
      RunKeepsInv(code, fill, states, envs, ch, i - 1);
      assert Steps(code, fill, states[i - 1], envs[i - 1], states[i - 1 + 1]);
      var ch' := StepKeepsInv(code, states[i - 1], ChainOf(states[i - 1]), envs[i - 1], fill, states[i]);
      CurFacts(code, states[i], ch');
    }
  }

  /** The state in which exec enters its loop: one machine, with no parent. */
  lemma InitialInv(code: seq<Insn>, root: nat, l: Local, now: nat, cycles: nat)
    requires root != 0
    ensures Inv(code, Sys(map[root := Qvm(l, None, false, NotWaiting)], root, now, cycles), [root])
  {
  }

  /** What the invariant says to someone watching: from the running machine the parents lead to a machine
      without a parent in finitely many different steps; none of these machines has ended; and each one above
      the running one stands at a WAIT, RTE or RTEV whose handle names the machine below it. */
  lemma ChainReading(code: seq<Insn>, s: Sys, ch: seq<nat>, i: nat)
    requires Inv(code, s, ch) && i < |ch|
    ensures ch[0] == s.cur && Distinct(ch) && ch[i] in s.vms && !s.vms[ch[i]].atEnd
    ensures s.vms[ch[i]].parent == if i + 1 < |ch| then Some(ch[i + 1]) else None
    ensures i > 0 ==>
      var insn := InsnAt(code, s.vms[ch[i]].local);
      && (insn.Wait? || insn.Rte? || insn.RteV?)
      && Handle(s.vms[ch[i]].local, insn.quaint)
         == Some(ch[i - 1])
  {
    InvChain(code, s, ch);
    ChainMembers(code, s, ch, i);
    hide Inv, Handle;
    if i + 1 < |ch| {
      ChainMembers(code, s, ch, i + 1);
    }
  }
}
