/** The one-slot trigger channel loses no wake-up. */
module ProtocolWakeup {
  import opened Domain
  import opened Protocol
  import opened ProtocolSafety
  import opened ProtocolCapacity

  /** The step at which an Acquire that has not yet sent its trigger popped its id. */
  function PopOf(pc: Pc): Option<nat> {
    match pc
    case TtlPending(_, a) => Some(a)
    case TtlRead(_, _, a) => Some(a)
    case TtlDone(_, a) => Some(a)
    case Routed(_, a) => Some(a)
    case _ => None
  }

  ghost predicate HistoryInv(w: World) {
    && w.hist.lastCheck < w.step
    && w.hist.finished <= w.hist.popped
    && (forall a | a in w.hist.popped :: a < w.step)
    && (forall a | a in w.hist.pushed :: a < w.step)
    && (forall t | t in w.threads && PopOf(w.threads[t]).Some? :: PopOf(w.threads[t]).value in w.hist.popped)
  }

  /** Each completed Acquire is known to the loop: a token waits for it, the loop
      is about to look, or its latest look came after the pop. */
  ghost predicate NoLostTrigger(w: World)
    requires LOOP in w.threads
  {
    forall a | a in w.hist.finished :: w.token || w.threads[LOOP].Checking? || a < w.hist.lastCheck
  }

  function ReadyAtCheck(w: World): nat
    requires LOOP in w.threads
  {
    match w.threads[LOOP]
    case SawReady(r) => r
    case SawAssigned(r, _) => r
    case _ => w.hist.seen.0
  }

  function Since(steps: set<nat>, last: nat): set<nat> {
    set a | a in steps && a > last
  }

  lemma SinceGrows(steps: set<nat>, last: nat, a: nat)
    requires a > last && a !in steps
    ensures |Since(steps + {a}, last)| == |Since(steps, last)| + 1
  {
    assert Since(steps + {a}, last) == Since(steps, last) + {a};
  }

  lemma SinceNone(steps: set<nat>, last: nat)
    requires forall a | a in steps :: a <= last
    ensures Since(steps, last) == {}
  {
  }

  /** The pops since the loop's latest look at the list. */
  function PopsSince(h: History): set<nat> {
    Since(h.popped, h.lastCheck)
  }

  /** The additions since then. */
  function PushesSince(h: History): set<nat> {
    Since(h.pushed, h.lastCheck)
  }

  /** The list is what the loop saw, with an entry more per push and one less per pop. */
  ghost predicate FreshLook(w: World)
    requires LOOP in w.threads
  {
    |w.store.ready| + |PopsSince(w.hist)| == ReadyAtCheck(w) + |PushesSince(w.hist)|
  }

  ghost predicate WakeInv(w: World, c: Config) {
    && LOOP in w.threads
    && HistoryInv(w)
    && NoLostTrigger(w)
    && FreshLook(w)
    && w.hist.seen.2 == 0
    && (w.hist.settled ==> Need(c, w.hist.seen.0, w.hist.seen.1, w.hist.seen.2) <= 0)
  }

  /** Nothing happened but the creation of ids and releases. */
  predicate SameLooks(h: History, k: History) {
    k == h.(used := k.used, dropped := k.dropped)
  }

  /** Thread t moves; if it is the loop it was and stays a provisioner or goes
      back to its checks, and the loop's records are untouched. */
  ghost predicate QuietMove(w: World, v: World, t: nat) {
    && OnlyThread(w, v, t)
    && LOOP in w.threads && LOOP in v.threads
    && (t in v.threads && PopOf(v.threads[t]).Some? ==> t in w.threads && PopOf(w.threads[t]) == PopOf(v.threads[t]))
    && (t == LOOP ==> Provisioning(w.threads[LOOP]) && !v.threads[LOOP].SawReady? && !v.threads[LOOP].SawAssigned?)
    && v.step == w.step && v.token == w.token && SameLooks(w.hist, v.hist)
    && |v.store.ready| == |w.store.ready|
  }

  lemma QuietKeeps(w: World, v: World, t: nat, c: Config)
    requires WakeInv(w, c) && QuietMove(w, v, t)
    ensures WakeInv(v, c)
  {
  }

  lemma PortQuiet(w: World, t: nat, p: ProvStep)
    requires LockInv(w) && ProvEnabled(w, t, p) && MovesPort(p)
    ensures QuietMove(w, ProvEffect(w, t, p), t)
  {
  }

  lemma RecordQuiet(w: World, t: nat, p: ProvStep)
    requires LockInv(w) && ProvEnabled(w, t, p) && (p.SetNew? || p.IndexNew?)
    ensures QuietMove(w, ProvEffect(w, t, p), t)
  {
  }

  lemma ProvQuiet(w: World, t: nat, p: ProvStep)
    requires LockInv(w) && ProvEnabled(w, t, p) && !p.PushNew?
    ensures QuietMove(w, ProvEffect(w, t, p), t)
  {
    if MovesPort(p) { PortQuiet(w, t, p); } else if MovesId(p) { RecordQuiet(w, t, p); }
  }

  lemma AcqQuiet(w: World, t: nat, a: AcqStep, c: Config)
    requires LOOP in w.threads && t != LOOP && AcqEnabled(w, t, a) && !a.SendToken? && !(a.Pop? && TakesId(w, a))
    ensures QuietMove(w, AcqEffect(w, t, a, c), t)
  {
  }

  lemma FreeQuiet(w: World, t: nat, r: RelStep)
    requires LOOP in w.threads && t != LOOP && RelEnabled(w, t, r) && (ReadsRecord(r) || FreesPort(r))
    ensures QuietMove(w, RelEffect(w, t, r), t)
  {
  }

  lemma RelQuiet(w: World, t: nat, r: RelStep)
    requires LOOP in w.threads && t != LOOP && RelEnabled(w, t, r)
    ensures QuietMove(w, RelEffect(w, t, r), t)
  {
    if ReadsRecord(r) || FreesPort(r) { FreeQuiet(w, t, r); }
  }

  lemma ExtQuiet(w: World, t: nat, e: ExtStep)
    requires LOOP in w.threads && t != LOOP && ExtEnabled(w, t, e)
    ensures ExtEffect(w, t, e) == w || QuietMove(w, ExtEffect(w, t, e), t)
  {
  }

  lemma PopWakes(w: World, t: nat, a: AcqStep, c: Config)
    requires WakeInv(w, c) && t != LOOP && a.Pop? && AcqEnabled(w, t, a) && TakesId(w, a)
    ensures WakeInv(AcqEffect(w, t, a, c).(step := w.step + 1), c)
  {
    var v := AcqEffect(w, t, a, c);
    SinceGrows(w.hist.popped, w.hist.lastCheck, w.step);
    assert v.hist.popped == w.hist.popped + {w.step} && v.hist.pushed == w.hist.pushed;
    assert v.threads[LOOP] == w.threads[LOOP];
  }

  lemma PushWakes(w: World, t: nat, p: ProvStep, c: Config)
    requires LockInv(w) && WakeInv(w, c) && p.PushNew? && ProvEnabled(w, t, p)
    ensures WakeInv(ProvEffect(w, t, p).(step := w.step + 1), c)
  {
    var v := ProvEffect(w, t, p);
    SinceGrows(w.hist.pushed, w.hist.lastCheck, w.step);
    assert v.hist.pushed == w.hist.pushed + {w.step} && v.hist.popped == w.hist.popped;
    assert if t == LOOP then v.threads[LOOP] == Checking else v.threads[LOOP] == w.threads[LOOP];
  }

  lemma SendWakes(w: World, t: nat, a: AcqStep, c: Config)
    requires WakeInv(w, c) && t != LOOP && a.SendToken? && AcqEnabled(w, t, a)
    ensures WakeInv(AcqEffect(w, t, a, c), c)
  {
    assert PopOf(w.threads[t]).Some?;
  }

  lemma LookWakes(w: World, l: LoopStep, c: Config)
    requires WakeInv(w, c) && l.ReadReady? && LoopEnabled(w, l)
    ensures WakeInv(LoopEffect(w, l, c).(step := w.step + 1), c)
  {
    var v := LoopEffect(w, l, c).(step := w.step + 1);
    SinceNone(w.hist.popped, w.step);
    SinceNone(w.hist.pushed, w.step);
    assert |PopsSince(v.hist)| == 0 && |PushesSince(v.hist)| == 0;
    assert ReadyAtCheck(v) == |w.store.ready|;
  }

  lemma DecideWakes(w: World, l: LoopStep, c: Config)
    requires Safe(w) && WakeInv(w, c) && l.Decide? && LoopEnabled(w, l)
    ensures WakeInv(LoopEffect(w, l, c).(step := w.step + 1), c)
  {
    var v := LoopEffect(w, l, c).(step := w.step + 1);
    NoWarming(w);
    assert PopsSince(v.hist) == PopsSince(w.hist) && PushesSince(v.hist) == PushesSince(w.hist);
    assert ReadyAtCheck(v) == w.threads[LOOP].ready == ReadyAtCheck(w);
  }

  lemma LoopWakes(w: World, l: LoopStep, c: Config)
    requires Safe(w) && WakeInv(w, c) && LoopEnabled(w, l)
    ensures WakeInv(LoopEffect(w, l, c).(step := w.step + 1), c)
  {
    match l
    case ReadReady => LookWakes(w, l, c);
    case Decide => DecideWakes(w, l, c);
    case _ =>
      assert LoopEffect(w, l, c).hist == w.hist;
      assert ReadyAtCheck(LoopEffect(w, l, c)) == ReadyAtCheck(w);
  }

  lemma Later(w: World, v: World, c: Config)
    requires WakeInv(w, c) && v == w.(step := v.step) && v.step >= w.step
    ensures WakeInv(v, c)
  {
  }

  lemma WakeEffect(w: World, s: Step, c: Config)
    requires Safe(w) && WakeInv(w, c) && Enabled(w, s) && !s.Loop? && !PopsLive(w, s) && !Pushes(s)
    ensures WakeInv(Effect(w, s, c), c)
  {
    match s
    case Provision(t, p) => ProvQuiet(w, t, p); QuietKeeps(w, ProvEffect(w, t, p), t, c);
    case Acquire(t, a) =>
      if a.SendToken? {
        SendWakes(w, t, a, c);
      } else {
        AcqQuiet(w, t, a, c); QuietKeeps(w, AcqEffect(w, t, a, c), t, c);
      }
    case Release(t, r) => RelQuiet(w, t, r); QuietKeeps(w, RelEffect(w, t, r), t, c);
    case Extend(t, e) =>
      ExtQuiet(w, t, e);
      if ExtEffect(w, t, e) != w { QuietKeeps(w, ExtEffect(w, t, e), t, c); }
  }

  lemma EffectKeepsStep(w: World, s: Step, c: Config)
    requires Enabled(w, s)
    ensures Effect(w, s, c).step == w.step
  {
  }

  lemma WakeStep(w: World, s: Step, c: Config)
    requires Safe(w) && WakeInv(w, c) && Enabled(w, s)
    ensures WakeInv(Apply(w, s, c), c)
  {
    if PopsLive(w, s) {
      PopWakes(w, s.t, s.a, c);
    } else if Pushes(s) {
      PushWakes(w, s.t, s.p, c);
    } else if s.Loop? {
      LoopWakes(w, s.l, c);
    } else {
      WakeEffect(w, s, c);
      EffectKeepsStep(w, s, c);
      Later(Effect(w, s, c), Apply(w, s, c), c);
    }
  }

  lemma {:induction false} WakeRun(ws: seq<World>, ss: seq<Step>, c: Config, i: nat)
    requires IsRun(ws, ss, c) && i < |ws|
    ensures WakeInv(ws[i], c)
  {
    if i == 0 {
    } else {
      WakeRun(ws, ss, c, i - 1);
      SafeRun(ws, ss, c, i - 1);
      assert RunStep(ws, ss, c, i - 1);
      WakeStep(ws[i - 1], ss[i - 1], c);
    }
  }

  /** Main theorem: in every reachable state no completed Acquire is forgotten. */
  lemma NoLostWakeup(ws: seq<World>, ss: seq<Step>, c: Config, i: nat)
    requires IsRun(ws, ss, c) && i < |ws|
    ensures LOOP in ws[i].threads && NoLostTrigger(ws[i])
  {
    WakeRun(ws, ss, c, i);
  }

  /** The loop waits, its latest TriggerReplenish was clean and no token is pending. */
  predicate AtRest(w: World) {
    LOOP in w.threads && w.threads[LOOP].Waiting? && w.hist.settled && !w.token
  }

  /** At rest the list is exactly what the latest check saw, one more for each push and
      one less for each pop since; and none of those pops has completed its Acquire. */
  lemma ListAtRest(ws: seq<World>, ss: seq<Step>, c: Config, i: nat)
    requires IsRun(ws, ss, c) && i < |ws| && AtRest(ws[i])
    ensures var h := ws[i].hist;
            && |ws[i].store.ready| + |PopsSince(h)| == h.seen.0 + |PushesSince(h)|
            && (forall a | a in PopsSince(h) :: a !in h.finished)
            && (h.seen.0 >= c.target || h.seen.0 + h.seen.1 >= c.capacity)
  {
    WakeRun(ws, ss, c, i);
  }

  /** Only the end of a successful Acquire sends a trigger: an Acquire that loses
      its instance to a TTL or route failure wakes nobody. */
  lemma OnlySuccessTriggers(w: World, s: Step, c: Config)
    requires Safe(w) && Enabled(w, s)
    ensures !w.token && Effect(w, s, c).token <==> !w.token && s.Acquire? && s.a.SendToken?
  {
    match s
    case Provision(t, p) => if !p.PushNew? { ProvQuiet(w, t, p); }
    case Acquire(t, a) => if !a.SendToken? && !(a.Pop? && TakesId(w, a)) { AcqQuiet(w, t, a, c); }
    case Release(t, r) => RelQuiet(w, t, r);
    case Extend(t, e) => ExtQuiet(w, t, e);
    case Loop(l) =>
  }
}
