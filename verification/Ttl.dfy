/** Expiry under full interleaving: unlike Protocol, nothing serialises the
    operations here, not even those on one id. */
module Ttl {
  import opened Domain
  import opened StoreSpec

  datatype Config = Config(defaultTtl: int, maxTtl: int)

  /** ExtendInstanceTTLAtomic passes int64(maxTTL.Seconds()) to the script. */
  function MaxSecs(c: Config): int {
    Unix(c.maxTtl)
  }

  datatype Pc =
    | SetRead(copy: Instance)                     // SetInstanceTTL: GET done
    | SetStamped(inst: Instance)                  // expiry computed from time.Now, SET is next
    | Armed(id: string, minutes: int, nowUnix: int)   // extend: clock read, script is next
    | ScriptDone(id: string, unix: int)           // script done, syncExpiresAtField's GET is next
    | SyncRead(copy: Instance, unix: int)         // SET is next
    | HandlerHolds(inst: Instance)                // acquireDemo's copy, SaveInstance is next

  datatype World = World(now: int, store: StoreState, threads: map<nat, Pc>)

  datatype Step =
    | Tick(d: nat)
    | Create(inst: Instance)
    | Delete(id: string)
    | TtlGet(t: nat, id: string)
    | TtlStamp(t: nat)
    | TtlSet(t: nat)
    | ReadClock(t: nat, id: string, minutes: int)
    | RunScript(t: nat)
    | SyncGet(t: nat)
    | SyncSet(t: nat)
    | AcquireReturns(t: nat, inst: Instance)
    | SaveBack(t: nat)

  predicate Enabled(w: World, s: Step) {
    match s
    case Tick(_) => true
    case Create(i) => !i.Expires() && i.expiresAtUnix == 0
    case Delete(_) => true
    case TtlGet(_, id) => id in w.store.records
    case TtlStamp(t) => t in w.threads && w.threads[t].SetRead?
    case TtlSet(t) => t in w.threads && w.threads[t].SetStamped?
    case ReadClock(_, _, m) => 1 <= m <= 60
    case RunScript(t) => t in w.threads && w.threads[t].Armed?
    case SyncGet(t) => t in w.threads && w.threads[t].ScriptDone? && w.threads[t].id in w.store.records
    case SyncSet(t) => t in w.threads && w.threads[t].SyncRead?
    case AcquireReturns(_, _) => true
    case SaveBack(t) => t in w.threads && w.threads[t].HandlerHolds?
  }

  function Go(w: World, t: nat, pc: Pc): World {
    w.(threads := w.threads[t := pc])
  }

  function Save(w: World, t: nat, i: Instance): World {
    w.(store := SaveInstance(w.store, i), threads := w.threads - {t})
  }

  function Apply(w: World, s: Step, c: Config): World
    requires Enabled(w, s)
  {
    match s
    case Tick(d) => w.(now := w.now + d)
    case Create(i) => w.(store := SaveInstance(w.store, i))
    case Delete(id) => w.(store := DeleteInstance(w.store, id))
    case TtlGet(t, id) => Go(w, t, SetRead(w.store.records[id]))
    case TtlStamp(t) => Go(w, t, SetStamped(w.threads[t].copy.WithExpiry(w.now + c.defaultTtl)))
    case TtlSet(t) => w.(store := SetRecord(w.store, w.threads[t].inst), threads := w.threads - {t})
    case ReadClock(t, id, m) => Go(w, t, Armed(id, m, Unix(w.now)))
    case RunScript(t) =>
      var pc := w.threads[t];
      var r := ExtendDecision(w.store, pc.id, 60 * pc.minutes, MaxSecs(c), pc.nowUnix);
      var v := w.(store := ExtendScript(w.store, pc.id, 60 * pc.minutes, MaxSecs(c), pc.nowUnix));
      if r.Extended? then Go(v, t, ScriptDone(pc.id, r.newUnix)) else v.(threads := v.threads - {t})
    case SyncGet(t) => Go(w, t, SyncRead(w.store.records[w.threads[t].id], w.threads[t].unix))
    case SyncSet(t) =>
      w.(store := SetRecord(w.store, w.threads[t].copy.WithExpiry(w.threads[t].unix * SECOND)),
         threads := w.threads - {t})
    case AcquireReturns(t, i) => Go(w, t, HandlerHolds(i.WithExpiry(w.now + c.defaultTtl)))
    case SaveBack(t) => Save(w, t, w.threads[t].inst)
  }

  /** Both expiry fields lie at most MaxTTL ahead of the clock. */
  predicate Bounded(i: Instance, now: int, c: Config) {
    && (i.expiresAtUnix != 0 ==> i.expiresAtUnix * SECOND <= now + c.maxTtl)
    && (i.expiresAt.Some? ==> i.expiresAt.value <= now + c.maxTtl)
  }

  predicate PendingBounded(pc: Pc, now: int, c: Config) {
    match pc
    case SetStamped(i) => Bounded(i, now, c)
    case HandlerHolds(i) => Bounded(i, now, c)
    case ScriptDone(_, u) => u * SECOND <= now + c.maxTtl
    case SyncRead(_, u) => u * SECOND <= now + c.maxTtl
    case Armed(_, _, n) => n <= Unix(now)
    case SetRead(_) => true
  }

  ghost predicate TtlInv(w: World, c: Config) {
    && (forall id | id in w.store.records :: Bounded(w.store.records[id], w.now, c))
    && (forall t | t in w.threads :: PendingBounded(w.threads[t], w.now, c))
  }

  lemma WithExpiryBounded(i: Instance, t: int, now: int, c: Config)
    requires t <= now + c.maxTtl
    ensures Bounded(i.WithExpiry(t), now, c)
  {
  }

  /** The script alone keeps the bound, even when its clock argument is stale. */
  lemma ScriptBounded(s: StoreState, id: string, ext: int, nowUnix: int, now: int, c: Config)
    requires id in s.records && nowUnix <= Unix(now)
    requires ExtendDecision(s, id, ext, MaxSecs(c), nowUnix).Extended?
    ensures ExtendDecision(s, id, ext, MaxSecs(c), nowUnix).newUnix * SECOND <= now + c.maxTtl
  {
    var exp := s.records[id].expiresAtUnix;
    assert exp + ext <= nowUnix + MaxSecs(c);
    assert MaxSecs(c) * SECOND <= c.maxTtl && Unix(now) * SECOND <= now;
  }

  lemma TtlStep(w: World, s: Step, c: Config)
    requires TtlInv(w, c) && Enabled(w, s) && c.defaultTtl <= c.maxTtl
    ensures TtlInv(Apply(w, s, c), c)
  {
    match s
    case TtlStamp(t) => WithExpiryBounded(w.threads[t].copy, w.now + c.defaultTtl, w.now, c);
    case AcquireReturns(_, i) => WithExpiryBounded(i, w.now + c.defaultTtl, w.now, c);
    case SyncSet(t) => WithExpiryBounded(w.threads[t].copy, w.threads[t].unix * SECOND, w.now, c);
    case RunScript(t) =>
      var pc := w.threads[t];
      if ExtendDecision(w.store, pc.id, 60 * pc.minutes, MaxSecs(c), pc.nowUnix).Extended? {
        ScriptBounded(w.store, pc.id, 60 * pc.minutes, pc.nowUnix, w.now, c);
      }
    case _ =>
  }

  ghost predicate IsRun(ws: seq<World>, ss: seq<Step>, c: Config) {
    && |ws| == |ss| + 1
    && ws[0].store == EMPTY && ws[0].threads == map[]
    && forall i :: 0 <= i < |ss| ==> Enabled(ws[i], ss[i]) && ws[i + 1] == Apply(ws[i], ss[i], c)
  }

  /** Main theorem: under every interleaving of SetInstanceTTL, extensions, their
      sync writes and the handler's save-back, no expiry exceeds now + MaxTTL. */
  lemma {:induction false} MaxTtlRespected(ws: seq<World>, ss: seq<Step>, c: Config, i: nat)
    requires IsRun(ws, ss, c) && i < |ws| && c.defaultTtl <= c.maxTtl
    ensures TtlInv(ws[i], c)
    ensures forall id | id in ws[i].store.records :: Bounded(ws[i].store.records[id], ws[i].now, c)
  {
    if i == 0 {
    } else {
      MaxTtlRespected(ws, ss, c, i - 1);
      TtlStep(ws[i - 1], ss[i - 1], c);
    }
  }

  /** The hypothesis on the configuration is needed: with DefaultTTL above MaxTTL
      the first SetInstanceTTL of any instance stores an expiry beyond the bound. */
  lemma DefaultAboveMax(w: World, t: nat, c: Config)
    requires Enabled(w, TtlStamp(t))
    ensures var v := Apply(Apply(w, TtlStamp(t), c), TtlSet(t), c);
            var id := w.threads[t].copy.id;
            id in v.store.records && (Bounded(v.store.records[id], v.now, c) <==> c.defaultTtl <= c.maxTtl)
  {
    var stamped := Apply(w, TtlStamp(t), c);
    assert stamped.threads[t] == SetStamped(w.threads[t].copy.WithExpiry(w.now + c.defaultTtl));
  }

  // ---- one extension after another ------------------------------------------------

  datatype Request = Request(ext: int, nowUnix: int)

  function ExtendAll(s: StoreState, id: string, rs: seq<Request>, maxSecs: int): StoreState
    decreases |rs|
  {
    if rs == [] then s
    else ExtendAll(ExtendAtomic(s, id, rs[0].ext, maxSecs, rs[0].nowUnix), id, rs[1..], maxSecs)
  }

  /** The extensions the script accepts, in order. */
  function Accepted(s: StoreState, id: string, rs: seq<Request>, maxSecs: int): seq<int>
    decreases |rs|
  {
    if rs == [] then []
    else
      (if ExtendDecision(s, id, rs[0].ext, maxSecs, rs[0].nowUnix).Extended? then [rs[0].ext] else [])
      + Accepted(ExtendAtomic(s, id, rs[0].ext, maxSecs, rs[0].nowUnix), id, rs[1..], maxSecs)
  }

  function Sum(xs: seq<int>): int {
    if xs == [] then 0 else xs[0] + Sum(xs[1..])
  }

  predicate FieldsAgree(i: Instance) {
    i.expiresAt.Some? && Unix(i.expiresAt.value) == i.expiresAtUnix
  }

  /** Sequential extensions lose nothing: the expiry moves by exactly the sum of
      the accepted ones, no other field or record changes, and the two expiry
      fields agree to the second whenever they did before. */
  lemma {:induction false} SequentialExtensionsAddUp(s: StoreState, id: string, rs: seq<Request>, maxSecs: int)
    requires id in s.records && s.records[id].id == id && FieldsAgree(s.records[id])
    requires forall r | r in rs :: r.ext > 0
    ensures var e := ExtendAll(s, id, rs, maxSecs);
            && id in e.records && FieldsAgree(e.records[id])
            && e.records[id].expiresAtUnix == s.records[id].expiresAtUnix + Sum(Accepted(s, id, rs, maxSecs))
            && e == s.(records := s.records[id := s.records[id].(expiresAt := e.records[id].expiresAt,
                                                                 expiresAtUnix := e.records[id].expiresAtUnix)])
            && (Accepted(s, id, rs, maxSecs) == [] ==> e == s)
    decreases |rs|
  {
    if rs == [] {
      assert s.records == s.records[id := s.records[id]];
    } else {
      var s1 := ExtendAtomic(s, id, rs[0].ext, maxSecs, rs[0].nowUnix);
      if ExtendDecision(s, id, rs[0].ext, maxSecs, rs[0].nowUnix).Extended? {
        assert FieldsAgree(s1.records[id]);
        var rest := Accepted(s1, id, rs[1..], maxSecs);
        assert ([rs[0].ext] + rest)[1..] == rest;
      } else {
        assert [] + Accepted(s1, id, rs[1..], maxSecs) == Accepted(s1, id, rs[1..], maxSecs);
      }
      SequentialExtensionsAddUp(s1, id, rs[1..], maxSecs);
      var e := ExtendAll(s, id, rs, maxSecs);
      assert e == ExtendAll(s1, id, rs[1..], maxSecs);
      assert e.records == s.records[id := e.records[id]];
    }
  }

  /** An accepted extension counts from the old expiry, so it can leave an
      instance that ran out before cleanup expired: exactly when it does not
      reach past the present second. */
  lemma AcceptedYetExpired(s: StoreState, id: string, ext: int, maxSecs: int, now: int)
    requires id in s.records && s.records[id].expiresAtUnix > 0 && ext > 0
    requires ExtendDecision(s, id, ext, maxSecs, Unix(now)).Extended?
    ensures var e := ExtendAtomic(s, id, ext, maxSecs, Unix(now)).records[id];
            e.IsExpired(now) <==> s.records[id].expiresAtUnix + ext < Unix(now)
  {
  }

  // ---- with nothing in between ----------------------------------------------------

  /** GET, clock and SET of SetInstanceTTL, run alone, add DefaultTTL to the clock. */
  lemma SetTtlAlone(w: World, t: nat, id: string, c: Config)
    requires id in w.store.records && w.store.records[id].id == id && t !in w.threads
    ensures var u := Apply(w, TtlGet(t, id), c);
            Enabled(u, TtlStamp(t)) && Enabled(Apply(u, TtlStamp(t), c), TtlSet(t))
    ensures var v := Apply(Apply(Apply(w, TtlGet(t, id), c), TtlStamp(t), c), TtlSet(t), c);
            && v.store == SetTtl(w.store, id, c.defaultTtl, w.now) && v.now == w.now && v.threads == w.threads
  {
    var u := Apply(w, TtlGet(t, id), c);
    var stamped := Apply(u, TtlStamp(t), c);
    var i := w.store.records[id].WithExpiry(w.now + c.defaultTtl);
    assert stamped.threads == w.threads[t := SetStamped(i)];
    assert stamped.threads - {t} == w.threads;
  }

  /** Clock and script of an extension, run alone, are its decision and its script; an
      accepted one goes on with the sync. */
  lemma ScriptAlone(w: World, t: nat, id: string, minutes: int, c: Config)
    requires t !in w.threads && 1 <= minutes <= 60
    ensures Enabled(Apply(w, ReadClock(t, id, minutes), c), RunScript(t))
    ensures var v := Apply(Apply(w, ReadClock(t, id, minutes), c), RunScript(t), c);
            var r := ExtendDecision(w.store, id, 60 * minutes, Unix(c.maxTtl), Unix(w.now));
            && v.store == ExtendScript(w.store, id, 60 * minutes, Unix(c.maxTtl), Unix(w.now)) && v.now == w.now
            && v.threads == if r.Extended? then w.threads[t := ScriptDone(id, r.newUnix)] else w.threads
  {
    var u := Apply(w, ReadClock(t, id, minutes), c);
    assert u.threads == w.threads[t := Armed(id, minutes, Unix(w.now))];
    assert u.threads - {t} == w.threads;
  }

  /** With the two commands of the sync it is ExtendInstanceTTLAtomic. */
  lemma ExtendAlone(w: World, t: nat, id: string, minutes: int, c: Config)
    requires t !in w.threads && 1 <= minutes <= 60 && (id in w.store.records ==> w.store.records[id].id == id)
    requires ExtendDecision(w.store, id, 60 * minutes, Unix(c.maxTtl), Unix(w.now)).Extended?
    ensures var u := Apply(Apply(w, ReadClock(t, id, minutes), c), RunScript(t), c);
            && Enabled(u, SyncGet(t)) && Enabled(Apply(u, SyncGet(t), c), SyncSet(t))
            && var v := Apply(Apply(u, SyncGet(t), c), SyncSet(t), c);
            && v.store == ExtendAtomic(w.store, id, 60 * minutes, Unix(c.maxTtl), Unix(w.now))
            && v.now == w.now && v.threads == w.threads
  {
    ScriptAlone(w, t, id, minutes, c);
    var u := Apply(Apply(w, ReadClock(t, id, minutes), c), RunScript(t), c);
    SyncAlone(u, t, id, u.threads[t].unix, c);
    assert (w.threads[t := u.threads[t]]) - {t} == w.threads;
  }

  /** The handler's save-back, run alone, saves the record it was handed with DefaultTTL
      counted from the hand-over. */
  lemma SaveBackAlone(w: World, t: nat, i: Instance, c: Config)
    requires t !in w.threads
    ensures var v := Apply(Apply(w, AcquireReturns(t, i), c), SaveBack(t), c);
            && v.store == SaveInstance(w.store, i.(expiresAt := Some(w.now + c.defaultTtl),
                                                   expiresAtUnix := Unix(w.now + c.defaultTtl)))
            && v.now == w.now && v.threads == w.threads
  {
    var u := Apply(w, AcquireReturns(t, i), c);
    assert u.threads - {t} == w.threads;
  }

  lemma SyncAlone(u: World, t: nat, id: string, unix: int, c: Config)
    requires t in u.threads && u.threads[t] == ScriptDone(id, unix)
    requires id in u.store.records && u.store.records[id].id == id
    ensures Enabled(u, SyncGet(t)) && Enabled(Apply(u, SyncGet(t), c), SyncSet(t))
    ensures Apply(Apply(u, SyncGet(t), c), SyncSet(t), c)
            == u.(store := SyncExpiry(u.store, id, unix), threads := u.threads - {t})
  {
    var v := Apply(u, SyncGet(t), c);
    assert v.threads == u.threads[t := SyncRead(u.store.records[id], unix)];
    assert v.threads - {t} == u.threads - {t};
  }
}
