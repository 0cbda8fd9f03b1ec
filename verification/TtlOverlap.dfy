/** Overlapping extensions of one instance: which of them survive. The script and the
    two commands of the sync are separate steps of the Ttl machine, in any order. */
module TtlOverlap {
  import opened Domain
  import opened StoreSpec
  import opened Ttl

  /** Records are stored under their own ids, and extensions are of 1 to 60 minutes. */
  ghost predicate Sound(w: World) {
    && (forall k | k in w.store.records :: w.store.records[k].id == k)
    && (forall t | t in w.threads && w.threads[t].Armed? :: 1 <= w.threads[t].minutes <= 60)
  }

  lemma SoundStep(w: World, s: Step, c: Config)
    requires Sound(w) && Enabled(w, s)
    ensures Sound(Apply(w, s, c))
  {
  }

  lemma {:induction false} SoundRun(ws: seq<World>, ss: seq<Step>, c: Config, i: nat)
    requires IsRun(ws, ss, c) && i < |ws|
    ensures Sound(ws[i])
  {
    if i == 0 {
    } else {
      SoundRun(ws, ss, c, i - 1);
      SoundStep(ws[i - 1], ss[i - 1], c);
    }
  }

  // ---- the writes to one expiry, as a sequence of events -----------------------------

  /** A script that was granted some seconds, a sync write that lands, or neither. */
  datatype Event = Grant(t: nat, secs: nat) | Land(t: nat, unix: int) | Idle

  /** The expiry after the first n events. */
  function Value(es: seq<Event>, start: int, n: nat): int
    requires n <= |es|
  {
    if n == 0 then start
    else match es[n - 1]
      case Grant(_, secs) => Value(es, start, n - 1) + secs
      case Land(_, unix) => unix
      case Idle => Value(es, start, n - 1)
  }

  /** The seconds granted in the first n events. */
  function Total(es: seq<Event>, n: nat): nat
    requires n <= |es|
  {
    if n == 0 then 0 else Total(es, n - 1) + if es[n - 1].Grant? then es[n - 1].secs else 0
  }

  /** The number of events up to the latest landing among the first n, or 0. */
  function Latest(es: seq<Event>, n: nat): (k: nat)
    requires n <= |es|
    ensures k <= n && (k > 0 ==> es[k - 1].Land?)
  {
    if n == 0 then 0 else if es[n - 1].Land? then n else Latest(es, n - 1)
  }

  /** The number of events before the latest grant of thread t among the first n. */
  function ScriptOf(es: seq<Event>, t: nat, n: nat): (m: nat)
    requires n <= |es|
    ensures m <= n
  {
    if n == 0 then 0 else if es[n - 1].Grant? && es[n - 1].t == t then n - 1 else ScriptOf(es, t, n - 1)
  }

  /** After n events a sync of thread t would carry `unix`: the expiry that its script
      saw and the seconds it was granted. */
  predicate Carried(es: seq<Event>, start: int, t: nat, unix: int, n: nat)
    requires n <= |es|
  {
    var m := ScriptOf(es, t, n);
    m < n && es[m].Grant? && es[m].secs > 0 && unix == Value(es, start, m) + es[m].secs
  }

  lemma CarriedStep(es: seq<Event>, start: int, t: nat, unix: int, n: nat)
    requires 0 < n <= |es|
    requires if es[n - 1].Grant? && es[n - 1].t == t
             then es[n - 1].secs > 0 && unix == Value(es, start, n - 1) + es[n - 1].secs
             else Carried(es, start, t, unix, n - 1)
    ensures Carried(es, start, t, unix, n)
  {
  }

  ghost predicate Honest(es: seq<Event>, start: int) {
    forall n {:trigger Carried(es, start, es[n].t, es[n].unix, n)} | 0 <= n < |es| && es[n].Land? ::
      Carried(es, start, es[n].t, es[n].unix, n)
  }

  lemma {:induction false} LatestDecides(es: seq<Event>, start: int, n: nat)
    requires n <= |es|
    ensures var k := Latest(es, n);
            Value(es, start, n) == (if k == 0 then start else es[k - 1].unix) + Total(es, n) - Total(es, k)
  {
    if n == 0 {
    } else {
      LatestDecides(es, start, n - 1);
    }
  }

  ghost predicate NoneGranted(es: seq<Event>, m: nat, n: nat)
    requires n <= |es|
  {
    forall j | m <= j < n :: es[j].Grant? ==> es[j].secs == 0
  }

  lemma {:induction false} TotalGrows(es: seq<Event>, m: nat, n: nat)
    requires m <= n <= |es|
    ensures Total(es, m) <= Total(es, n)
    ensures Total(es, m) == Total(es, n) <==> NoneGranted(es, m, n)
  {
    if m == n {
    } else {
      TotalGrows(es, m, n - 1);
    }
  }

  /** Nothing is ever added twice. */
  lemma {:induction false} NeverMore(es: seq<Event>, start: int, n: nat)
    requires Honest(es, start) && n <= |es|
    ensures Value(es, start, n) <= start + Total(es, n)
  {
    if n == 0 {
    } else if es[n - 1].Land? {
      var m := ScriptOf(es, es[n - 1].t, n - 1);
      assert Carried(es, start, es[n - 1].t, es[n - 1].unix, n - 1);
      NeverMore(es, start, m);
      TotalGrows(es, m + 1, n);
    } else {
      NeverMore(es, start, n - 1);
    }
  }

  /** Every extension accepted so far is in the expiry. */
  predicate Kept(es: seq<Event>, start: int, n: nat)
    requires n <= |es|
  {
    Value(es, start, n) == start + Total(es, n)
  }

  /** A condition on the order of events alone: no sync has landed yet, or nothing was
      accepted between the latest sync to land and its own script, and the same held
      when that script ran. */
  ghost predicate InOrder(es: seq<Event>, n: nat)
    requires n <= |es|
  {
    var k := Latest(es, n);
    k == 0 ||
    (var m := ScriptOf(es, es[k - 1].t, k - 1);
     m < k - 1 && NoneGranted(es, m + 1, k - 1) && InOrder(es, m))
  }

  /** What the latest landing left out: the seconds granted between its script and it. */
  lemma LandingLeavesOut(es: seq<Event>, start: int, n: nat, k: nat, m: nat)
    requires Honest(es, start) && n <= |es| && k == Latest(es, n) > 0 && m == ScriptOf(es, es[k - 1].t, k - 1)
    ensures m < k - 1
    ensures Value(es, start, n) - Total(es, n)
            == Value(es, start, m) - Total(es, m) - (Total(es, k - 1) - Total(es, m + 1))
  {
    LatestDecides(es, start, n);
    assert Carried(es, start, es[k - 1].t, es[k - 1].unix, k - 1);
    assert Total(es, m + 1) == Total(es, m) + es[m].secs && Total(es, k) == Total(es, k - 1);
  }

  /** At the latest landing, everything is kept if and only if everything was kept when
      its script ran and nothing was granted in between. */
  lemma KeptAtLanding(es: seq<Event>, start: int, n: nat, k: nat, m: nat)
    requires Honest(es, start) && n <= |es| && k == Latest(es, n) > 0 && m == ScriptOf(es, es[k - 1].t, k - 1)
    ensures m < k - 1
    ensures Kept(es, start, n) <==> Kept(es, start, m) && NoneGranted(es, m + 1, k - 1)
  {
    LandingLeavesOut(es, start, n, k, m);
    NeverMore(es, start, m);
    TotalGrows(es, m + 1, k - 1);
  }

  lemma {:induction false} KeptIffInOrder(es: seq<Event>, start: int, n: nat)
    requires Honest(es, start) && n <= |es|
    ensures Kept(es, start, n) <==> InOrder(es, n)
  {
    var k := Latest(es, n);
    if k == 0 {
      LatestDecides(es, start, n);
    } else {
      var m := ScriptOf(es, es[k - 1].t, k - 1);
      KeptAtLanding(es, start, n, k, m);
      KeptIffInOrder(es, start, m);
    }
  }

  // ---- the Ttl machine produces such events --------------------------------------------

  function EventOf(w: World, s: Step, id: string, c: Config): Event
    requires Enabled(w, s) && Sound(w)
  {
    match s
    case RunScript(t) =>
      var pc := w.threads[t];
      if pc.id == id && ExtendDecision(w.store, id, 60 * pc.minutes, MaxSecs(c), pc.nowUnix).Extended?
      then Grant(t, 60 * pc.minutes) else Idle
    case SyncSet(t) => if w.threads[t].copy.id == id then Land(t, w.threads[t].unix) else Idle
    case _ => Idle
  }

  /** A step other than an extension that writes the record. */
  predicate Rewrites(w: World, s: Step, id: string)
    requires Enabled(w, s)
  {
    match s
    case Create(i) => i.id == id
    case Delete(x) => x == id
    case TtlSet(t) => w.threads[t].inst.id == id
    case SaveBack(t) => w.threads[t].inst.id == id
    case _ => false
  }

  /** Step s leads from w to v and does e to the expiry of this id. */
  ghost predicate Does(w: World, s: Step, e: Event, v: World, id: string, c: Config) {
    Sound(w) && Enabled(w, s) && v == Apply(w, s, c) && e == EventOf(w, s, id, c) && !Rewrites(w, s, id)
  }

  ghost predicate DoesAt(ws: seq<World>, ss: seq<Step>, es: seq<Event>, id: string, c: Config, n: nat)
    requires |ws| == |ss| + 1 && |es| == |ss| && n < |ss|
  {
    Does(ws[n], ss[n], es[n], ws[n + 1], id, c)
  }

  /** A stretch of steps in which only extensions write the record of this id; other
      ids and the clock move freely. `es` lists what the steps do to its expiry. */
  ghost predicate Stretch(ws: seq<World>, ss: seq<Step>, es: seq<Event>, id: string, c: Config) {
    && |ws| == |ss| + 1 && |es| == |ss|
    && id in ws[0].store.records
    && forall n :: 0 <= n < |ss| ==> DoesAt(ws, ss, es, id, c, n)
  }

  function Expiry(w: World, id: string): int
    requires id in w.store.records
  {
    w.store.records[id].expiresAtUnix
  }

  lemma ExpiryStep(w: World, s: Step, id: string, c: Config)
    requires Sound(w) && id in w.store.records && Enabled(w, s) && !Rewrites(w, s, id)
    ensures var v := Apply(w, s, c);
            && id in v.store.records
            && Expiry(v, id) == match EventOf(w, s, id, c)
                                case Grant(_, secs) => Expiry(w, id) + secs
                                case Land(_, unix) => unix
                                case Idle => Expiry(w, id)
  {
  }

  lemma {:induction false} ExpiryIsValue(ws: seq<World>, ss: seq<Step>, es: seq<Event>, id: string, c: Config, n: nat)
    requires Stretch(ws, ss, es, id, c) && n <= |ss|
    ensures id in ws[n].store.records && Expiry(ws[n], id) == Value(es, Expiry(ws[0], id), n)
  {
    if n == 0 {
    } else {
      ExpiryIsValue(ws, ss, es, id, c, n - 1);
      assert DoesAt(ws, ss, es, id, c, n - 1);
      ExpiryStep(ws[n - 1], ss[n - 1], id, c);
    }
  }

  /** The expiry that thread t is about to write for this id, if its script is done. */
  function Carries(w: World, t: nat, id: string): Option<int> {
    if t !in w.threads then None
    else match w.threads[t]
      case ScriptDone(x, u) => if x == id then Some(u) else None
      case SyncRead(copy, u) => if copy.id == id then Some(u) else None
      case _ => None
  }

  ghost predicate NonePending(w: World, id: string) {
    forall t :: Carries(w, t, id).None?
  }

  lemma CarriesStep(w: World, s: Step, t: nat, id: string, c: Config)
    requires Sound(w) && Enabled(w, s) && id in w.store.records && Carries(Apply(w, s, c), t, id).Some?
    ensures var e := EventOf(w, s, id, c);
            if e.Grant? && e.t == t then e.secs > 0 && Carries(Apply(w, s, c), t, id) == Some(Expiry(w, id) + e.secs)
            else Carries(Apply(w, s, c), t, id) == Carries(w, t, id)
  {
  }

  lemma {:induction false} PendingIsCarried(ws: seq<World>, ss: seq<Step>, es: seq<Event>, id: string, c: Config,
                                            n: nat, t: nat)
    requires Stretch(ws, ss, es, id, c) && NonePending(ws[0], id) && n <= |ss| && Carries(ws[n], t, id).Some?
    ensures Carried(es, Expiry(ws[0], id), t, Carries(ws[n], t, id).value, n)
  {
    if n == 0 {
    } else {
      ExpiryIsValue(ws, ss, es, id, c, n - 1);
      assert DoesAt(ws, ss, es, id, c, n - 1);
      CarriesStep(ws[n - 1], ss[n - 1], t, id, c);
      if !(es[n - 1].Grant? && es[n - 1].t == t) {
        PendingIsCarried(ws, ss, es, id, c, n - 1, t);
      }
      CarriedStep(es, Expiry(ws[0], id), t, Carries(ws[n], t, id).value, n);
    }
  }

  lemma StretchHonest(ws: seq<World>, ss: seq<Step>, es: seq<Event>, id: string, c: Config)
    requires Stretch(ws, ss, es, id, c) && NonePending(ws[0], id)
    ensures Honest(es, Expiry(ws[0], id))
  {
    forall n | 0 <= n < |es| && es[n].Land? ensures Carried(es, Expiry(ws[0], id), es[n].t, es[n].unix, n) {
      assert DoesAt(ws, ss, es, id, c, n);
      assert Carries(ws[n], es[n].t, id) == Some(es[n].unix);
      PendingIsCarried(ws, ss, es, id, c, n, es[n].t);
    }
  }

  /** Main theorem: whatever overlaps, the expiry is what the latest sync to land
      carried, or the initial one, plus the extensions accepted since then. */
  lemma LatestSyncDecides(ws: seq<World>, ss: seq<Step>, es: seq<Event>, id: string, c: Config, n: nat)
    requires Stretch(ws, ss, es, id, c) && n <= |ss|
    ensures id in ws[n].store.records
    ensures var k := Latest(es, n);
            Expiry(ws[n], id) == (if k == 0 then Expiry(ws[0], id) else es[k - 1].unix) + Total(es, n) - Total(es, k)
  {
    ExpiryIsValue(ws, ss, es, id, c, n);
    LatestDecides(es, Expiry(ws[0], id), n);
  }

  /** Main theorem: with no extension in flight at the start, overlapping extensions all
      survive if and only if, going back from the latest sync to land to its script,
      and from there to the latest sync before it, no other extension was accepted
      between a script and its sync. They never add up to more. */
  lemma ExtensionsSurvive(ws: seq<World>, ss: seq<Step>, es: seq<Event>, id: string, c: Config, n: nat)
    requires Stretch(ws, ss, es, id, c) && NonePending(ws[0], id) && n <= |ss|
    ensures id in ws[n].store.records
    ensures Expiry(ws[n], id) <= Expiry(ws[0], id) + Total(es, n)
    ensures Expiry(ws[n], id) == Expiry(ws[0], id) + Total(es, n) <==> InOrder(es, n)
  {
    ExpiryIsValue(ws, ss, es, id, c, n);
    StretchHonest(ws, ss, es, id, c);
    NeverMore(es, Expiry(ws[0], id), n);
    KeptIffInOrder(es, Expiry(ws[0], id), n);
  }

  // ---- a lost extension ------------------------------------------------------------------

  datatype Trace = Trace(ws: seq<World>, ss: seq<Step>, es: seq<Event>)

  /** A stretch from w to v in which some seconds were granted. */
  ghost predicate Covers(tr: Trace, w: World, v: World, granted: int, id: string, c: Config) {
    Stretch(tr.ws, tr.ss, tr.es, id, c) && tr.ws[0] == w && tr.ws[|tr.ss|] == v && Total(tr.es, |tr.es|) == granted
  }

  lemma {:induction false} TotalPrefix(es: seq<Event>, fs: seq<Event>, n: nat)
    requires n <= |es| <= |fs| && es == fs[..|es|]
    ensures Total(fs, n) == Total(es, n)
  {
    if n == 0 {
    } else {
      TotalPrefix(es, fs, n - 1);
    }
  }

  lemma OneMore(tr: Trace, w: World, v: World, granted: int, s: Step, e: Event, u: World, id: string, c: Config)
    returns (tq: Trace)
    requires Covers(tr, w, v, granted, id, c) && Does(v, s, e, u, id, c)
    ensures Covers(tq, w, u, granted + if e.Grant? then e.secs else 0, id, c)
  {
    tq := Trace(tr.ws + [u], tr.ss + [s], tr.es + [e]);
    forall n | 0 <= n < |tr.ss| ensures DoesAt(tq.ws, tq.ss, tq.es, id, c, n) {
      assert DoesAt(tr.ws, tr.ss, tr.es, id, c, n);
    }
    TotalPrefix(tr.es, tq.es, |tr.es|);
  }

  /** The script of thread t is accepted. */
  lemma Accepts(tr: Trace, w: World, v: World, granted: int, t: nat, id: string, m: int, c: Config)
    returns (tq: Trace, u: World)
    requires Covers(tr, w, v, granted, id, c) && Sound(v) && id in v.store.records && m > 0
    requires t in v.threads && v.threads[t] == Armed(id, m, Unix(v.now))
    requires Expiry(v, id) >= Unix(v.now) > 0 && Expiry(v, id) + 60 * m - Unix(v.now) <= Unix(c.maxTtl)
    ensures Covers(tq, w, u, granted + 60 * m, id, c) && Sound(u) && u.now == v.now
    ensures u.threads == v.threads[t := ScriptDone(id, Expiry(v, id) + 60 * m)]
    ensures id in u.store.records && Expiry(u, id) == Expiry(v, id) + 60 * m
  {
    u := Apply(v, RunScript(t), c);
    SoundStep(v, RunScript(t), c);
    tq := OneMore(tr, w, v, granted, RunScript(t), Grant(t, 60 * m), u, id, c);
  }

  /** The two commands of the sync of thread t. */
  lemma SyncsAlone(tr: Trace, w: World, v: World, granted: int, t: nat, id: string, x: int, c: Config)
    returns (tq: Trace, u: World)
    requires Covers(tr, w, v, granted, id, c) && Sound(v) && id in v.store.records
    requires t in v.threads && v.threads[t] == ScriptDone(id, x)
    ensures Covers(tq, w, u, granted, id, c) && Sound(u) && id in u.store.records
    ensures u.threads == v.threads - {t} && Expiry(u, id) == x
  {
    var mid := Apply(v, SyncGet(t), c);
    SoundStep(v, SyncGet(t), c);
    var tp := OneMore(tr, w, v, granted, SyncGet(t), Idle, mid, id, c);
    u := Apply(mid, SyncSet(t), c);
    SoundStep(mid, SyncSet(t), c);
    tq := OneMore(tp, w, mid, granted, SyncSet(t), Land(t, x), u, id, c);
  }

  lemma BothArmed(w: World, id: string, m1: int, m2: int, c: Config) returns (tr: Trace, v: World)
    requires Sound(w) && w.threads == map[] && id in w.store.records && 1 <= m1 <= 60 && 1 <= m2 <= 60
    ensures Covers(tr, w, v, 0, id, c) && Sound(v) && v.now == w.now && v.store == w.store
    ensures v.threads.Keys == {1, 2}
    ensures v.threads[1] == Armed(id, m1, Unix(w.now)) && v.threads[2] == Armed(id, m2, Unix(w.now))
  {
    var mid := Apply(w, ReadClock(1, id, m1), c);
    v := Apply(mid, ReadClock(2, id, m2), c);
    SoundStep(w, ReadClock(1, id, m1), c);
    SoundStep(mid, ReadClock(2, id, m2), c);
    tr := Trace([w], [], []);
    tr := OneMore(tr, w, w, 0, ReadClock(1, id, m1), Idle, mid, id, c);
    tr := OneMore(tr, w, mid, 0, ReadClock(2, id, m2), Idle, v, id, c);
  }

  /** Two callers read the clock, and both scripts are accepted. */
  lemma BothAccepted(w: World, id: string, m1: int, m2: int, c: Config) returns (tr: Trace, v: World)
    requires Sound(w) && w.threads == map[] && id in w.store.records && 1 <= m1 <= 60 && 1 <= m2 <= 60
    requires Expiry(w, id) >= Unix(w.now) > 0 && Expiry(w, id) + 60 * (m1 + m2) - Unix(w.now) <= Unix(c.maxTtl)
    ensures Covers(tr, w, v, 60 * (m1 + m2), id, c) && Sound(v) && id in v.store.records
    ensures v.threads.Keys == {1, 2}
    ensures v.threads[1] == ScriptDone(id, Expiry(w, id) + 60 * m1)
    ensures v.threads[2] == ScriptDone(id, Expiry(w, id) + 60 * (m1 + m2))
  {
    tr, v := BothArmed(w, id, m1, m2, c);
    tr, v := Accepts(tr, w, v, 0, 1, id, m1, c);
    tr, v := Accepts(tr, w, v, 60 * m1, 2, id, m2, c);
  }

  /** With room for two extensions both are accepted, and the first one's sync, landing
      last, puts its own expiry back over the second one's. */
  lemma ExtensionLost(w: World, id: string, m1: int, m2: int, c: Config) returns (tr: Trace, v: World)
    requires Sound(w) && w.threads == map[] && id in w.store.records && 1 <= m1 <= 60 && 1 <= m2 <= 60
    requires Expiry(w, id) >= Unix(w.now) > 0 && Expiry(w, id) + 60 * (m1 + m2) - Unix(w.now) <= Unix(c.maxTtl)
    ensures NonePending(w, id) && Covers(tr, w, v, 60 * (m1 + m2), id, c)
    ensures v.threads == map[] && id in v.store.records && Expiry(v, id) == Expiry(w, id) + 60 * m1
  {
    var x := Expiry(w, id) + 60 * m1;
    tr, v := BothAccepted(w, id, m1, m2, c);
    tr, v := SyncsAlone(tr, w, v, 60 * (m1 + m2), 2, id, x + 60 * m2, c);
    tr, v := SyncsAlone(tr, w, v, 60 * (m1 + m2), 1, id, x, c);
  }
}
