/**
 The manager's table and the state machine agree: a validation in which nothing else
 happens drops exactly the hooks that `Manager.Lock` drops, and a notice that finds the
 lock free drops those that `Manager.OnUnload` drops.
 */
module DelayRefinement {
  import opened Options
  import opened DelayManager
  import T = DelayTable

  /** A request as the table holds it. */
  function RequestOf(p: Pending): T.Request {
    T.Request(p.id, match p.hook { case None => None case Some(h) => Some(T.Installed(h.target, h.base)) })
  }

  function Requests(ps: seq<Pending>): (rs: seq<T.Request>)
    ensures |rs| == |ps|
  {
    seq(|ps|, k requires 0 <= k < |ps| => RequestOf(ps[k]))
  }

  /** `p` answers about the loader and memory of state `s`. */
  ghost predicate Describes(p: T.Process, s: State) {
    && (forall a: Addr, b: Addr :: p.baseOf(a) == Some(b) <==> InImage(s, b, a))
    && (forall a: Addr :: p.byteAt(a) == if a in s.bytes then Some(s.bytes[a]) else None)
  }

  predicate CanValidate(s: State) {
    !s.lock.Free? && (s.lock.CheckByte? ==> s.lock.i < |s.pending| && s.pending[s.lock.i].hook.Some?)
  }

  /** Lock steps taken one after the other until the body is reached. */
  function ValidateAll(s: State): State
    requires CanValidate(s)
    decreases StepsLeft(s)
  {
    if s.lock.Body? then s else
      StepsGoDown(s);
      ValidateAll(Validate(s))
  }

  function StepsLeft(s: State): nat {
    match s.lock
    case SwapMissed => 2 * |s.pending| + 3
    case LoadFlag => 2 * |s.pending| + 2
    case CheckBase(i, _) => if i <= |s.pending| then 2 * (|s.pending| - i) + 1 else 1
    case CheckByte(i, _) => if i < |s.pending| then 2 * (|s.pending| - i) else 1
    case _ => 0
  }

  lemma StepsGoDown(s: State)
    requires CanValidate(s) && !s.lock.Body?
    ensures CanValidate(Validate(s)) && StepsLeft(Validate(s)) < StepsLeft(s)
  {
    if s.lock.CheckBase? && s.lock.i < |s.pending| {
      ImageCheckGoesDown(s);
    }
  }

  lemma ImageCheckGoesDown(s: State)
    requires s.lock.CheckBase? && s.lock.i < |s.pending|
    ensures CanValidate(CheckImage(s)) && StepsLeft(CheckImage(s)) < StepsLeft(s)
  {
  }

  /** Requests from `i` on pruned, the ones before as they are. */
  ghost predicate PrunedFrom(p: T.Process, m: bool, i: nat, before: seq<Pending>, after: seq<Pending>) {
    && |after| == |before|
    && forall k :: 0 <= k < |before| ==>
         RequestOf(after[k]) == if k < i then RequestOf(before[k]) else T.Pruned(RequestOf(before[k]), T.StaleIn(p, m))
  }

  /** Whether the two checks of `still_installed` keep the hook. */
  predicate Keeps(s: State, h: Hook, m: bool) {
    && h.base != 0 && InImage(s, h.base, h.target)
    && (m ==> h.target in s.bytes && s.bytes[h.target] == INT3)
  }

  lemma KeepsIsInstalled(p: T.Process, s: State, h: Hook, m: bool)
    requires Describes(p, s)
    ensures Keeps(s, h, m) <==> T.StillInstalled(p, T.Installed(h.target, h.base), m)
  {
    assert p.baseOf(h.target) == Some(h.base) <==> InImage(s, h.base, h.target);
  }

  /** The one or two steps that deal with the next request. */
  function CheckNext(s: State): State
    requires s.lock.CheckBase? && s.lock.i < |s.pending|
  {
    var c := CheckImage(s);
    if c.lock.CheckByte? then CheckEntryByte(c) else c
  }

  lemma CheckNextIs(s: State)
    requires s.lock.CheckBase? && s.lock.i < |s.pending|
    ensures var s1 := CheckNext(s);
            && s1 == s.(pending := s1.pending, lock := CheckBase(s.lock.i + 1, s.lock.missed))
            && |s1.pending| == |s.pending| && s1.pending == s.pending[s.lock.i := s1.pending[s.lock.i]]
            && s1.pending[s.lock.i].id == s.pending[s.lock.i].id
    ensures var q, q1 := s.pending[s.lock.i], CheckNext(s).pending[s.lock.i];
            q1.hook == if q.hook.Some? && Keeps(s, q.hook.value, s.lock.missed) then q.hook else None
  {
    var q := s.pending[s.lock.i];
    assert s.pending[s.lock.i := q] == s.pending;
  }

  lemma OneStep(s: State)
    requires CanValidate(s) && !s.lock.Body?
    ensures CanValidate(Validate(s)) && ValidateAll(s) == ValidateAll(Validate(s))
  {
    StepsGoDown(s);
  }

  lemma NextLeadsOn(s: State)
    requires s.lock.CheckBase? && s.lock.i < |s.pending|
    ensures CanValidate(CheckNext(s)) && ValidateAll(s) == ValidateAll(CheckNext(s))
  {
    OneStep(s);
    if CheckImage(s).lock.CheckByte? {
      OneStep(CheckImage(s));
    }
  }

  lemma EndLeadsToBody(s: State)
    requires s.lock.CheckBase? && s.lock.i == |s.pending|
    ensures ValidateAll(s) == s.(lock := Body(s.lock.missed))
  {
    OneStep(s);
  }

  lemma NextIsPruned(p: T.Process, s: State)
    requires Describes(p, s) && s.lock.CheckBase? && s.lock.i < |s.pending|
    ensures |CheckNext(s).pending| == |s.pending|
    ensures RequestOf(CheckNext(s).pending[s.lock.i])
         == T.Pruned(RequestOf(s.pending[s.lock.i]), T.StaleIn(p, s.lock.missed))
  {
    CheckNextIs(s);
    var q := s.pending[s.lock.i];
    if q.hook.Some? {
      KeepsIsInstalled(p, s, q.hook.value, s.lock.missed);
    }
  }

  lemma PruneOn(p: T.Process, m: bool, i: nat, before: seq<Pending>, q: Pending, after: seq<Pending>)
    requires i < |before| && RequestOf(q) == T.Pruned(RequestOf(before[i]), T.StaleIn(p, m))
    requires PrunedFrom(p, m, i + 1, before[i := q], after)
    ensures PrunedFrom(p, m, i, before, after)
  {
  }

  /** The checks from request `i` on lead to the body, with these requests pruned. */
  ghost predicate Led(p: T.Process, s: State, r: State)
    requires s.lock.CheckBase?
  {
    && r == s.(pending := r.pending, lock := Body(s.lock.missed))
    && PrunedFrom(p, s.lock.missed, s.lock.i, s.pending, r.pending)
  }

  lemma LedOn(p: T.Process, s: State, r: State)
    requires Describes(p, s) && s.lock.CheckBase? && s.lock.i < |s.pending| && Led(p, CheckNext(s), r)
    ensures Led(p, s, r)
  {
    CheckNextIs(s);
    NextIsPruned(p, s);
    PruneOn(p, s.lock.missed, s.lock.i, s.pending, CheckNext(s).pending[s.lock.i], r.pending);
  }

  lemma NextIsReady(p: T.Process, s: State)
    requires Describes(p, s) && s.lock.CheckBase? && s.lock.i < |s.pending|
    ensures var s1 := CheckNext(s);
            && Describes(p, s1) && s1.lock == CheckBase(s.lock.i + 1, s.lock.missed) && |s1.pending| == |s.pending|
  {
    CheckNextIs(s);
  }

  lemma LedAtEnd(p: T.Process, s: State)
    requires s.lock.CheckBase? && s.lock.i == |s.pending|
    ensures Led(p, s, ValidateAll(s))
  {
    EndLeadsToBody(s);
  }

  lemma {:induction false} ChecksPrune(p: T.Process, s: State)
    requires Describes(p, s) && s.lock.CheckBase? && s.lock.i <= |s.pending|
    ensures Led(p, s, ValidateAll(s))
    decreases |s.pending| - s.lock.i
  {
    if s.lock.i < |s.pending| {
      NextIsReady(p, s);
      NextLeadsOn(s);
      ChecksPrune(p, CheckNext(s));
      LedOn(p, s, ValidateAll(s));
    } else {
      LedAtEnd(p, s);
    }
  }

  lemma BeginKeepsRequests(s: State)
    requires s.lock.SwapMissed?
    ensures Requests(BeginCheck(s)) == Requests(s.pending)
  {
  }

  /** An undisturbed `lock_manager` leaves the list `Manager.Lock` leaves. */
  lemma LockRefines(p: T.Process, s: State)
    requires Describes(p, s) && s.lock.SwapMissed?
    ensures var r := ValidateAll(s);
            && r == s.(pending := r.pending, missed := false, lock := Body(s.missed || !s.notified))
            && Requests(r.pending) == T.PruneAll(Requests(s.pending), T.StaleIn(p, s.missed || !s.notified))
  {
    var m := s.missed || !s.notified;
    var s2 := s.(missed := false, pending := BeginCheck(s), lock := CheckBase(0, m));
    SwapLeadsTo(s);
    ChecksPrune(p, s2);
    BeginKeepsRequests(s);
    AllPruned(p, m, s2.pending, ValidateAll(s2).pending);
  }

  lemma SwapLeadsTo(s: State)
    requires s.lock.SwapMissed?
    ensures ValidateAll(s)
         == ValidateAll(s.(missed := false, pending := BeginCheck(s), lock := CheckBase(0, s.missed || !s.notified)))
  {
    OneStep(s);
    if Validate(s).lock.LoadFlag? {
      OneStep(Validate(s));
    }
  }

  lemma AllPruned(p: T.Process, m: bool, before: seq<Pending>, after: seq<Pending>)
    requires PrunedFrom(p, m, 0, before, after)
    ensures Requests(after) == T.PruneAll(Requests(before), T.StaleIn(p, m))
  {
  }

  /**
   A notice that finds the lock free leaves the list `Manager.OnUnload` leaves; one that finds it
   busy leaves word; one that nobody is told of leaves the list as it is.
   */
  lemma NotifyRefines(s: State, base: Addr)
    requires base in s.images
    ensures var r := AfterNotify(s, base);
            && r == s.(pending := r.pending, missed := s.missed || (s.live && !s.lock.Free?),
                       images := s.images[base := s.images[base].(leaving := true)])
            && Requests(r.pending)
               == if s.live && s.lock.Free?
                  then T.PruneAll(Requests(s.pending), T.InRange(base, base + s.images[base].size))
                  else Requests(s.pending)
  {
  }

  /** A registration appends a request as `Manager.Register` does; the hook follows when its module is there. */
  lemma RegisterRefines(s: State)
    requires s.lock.Body?
    ensures Requests(Apply(s, Register).pending) == Requests(s.pending) + [T.Request(s.nextId, None)]
    ensures Apply(s, Register).nextId == s.nextId + 1
  {
  }

  lemma InstallRefines(s: State, k: nat, base: Addr, a: Addr)
    requires Enabled(s, Install(k, base, a))
    ensures var r := Apply(s, Install(k, base, a));
            && r == s.(pending := r.pending, bytes := s.bytes[a := INT3])
            && Requests(r.pending)
               == Requests(s.pending)[k := T.Request(s.pending[k].id, Some(T.Installed(a, base)))]
  {
  }

  lemma RequestsAt(ps: seq<Pending>, k: nat)
    requires k < |ps|
    ensures Requests(ps[..k] + ps[k + 1..]) == Requests(ps)[..k] + Requests(ps)[k + 1..]
  {
  }

  /** Removing a request leaves the list `Manager.Remove` leaves. */
  lemma RemoveRefines(s: State, k: nat)
    requires Enabled(s, Remove(k)) && T.IdsOk(Requests(s.pending), s.nextId)
    ensures Requests(Apply(s, Remove(k)).pending) == T.Without(Requests(s.pending), s.pending[k].id)
  {
    var rs := Requests(s.pending);
    forall j | 0 <= j < k ensures rs[j].id != s.pending[k].id {
      assert rs[j].id < rs[k].id;
    }
    T.WithoutAt(rs, s.pending[k].id, k);
    RequestsAt(s.pending, k);
  }

  /** And puts back the byte the hook had found, if it was installed last. */
  lemma RemoveUndoesInstall(s: State, k: nat, base: Addr, a: Addr)
    requires Enabled(s, Install(k, base, a))
    ensures var s1 := Apply(s, Install(k, base, a));
            Enabled(s1, Remove(k)) && Apply(s1, Remove(k)) == s.(pending := s.pending[..k] + s.pending[k + 1..])
  {
    var s2 := Apply(Apply(s, Install(k, base, a)), Remove(k));
    assert s2.bytes == s.bytes;
  }

  predicate SameIds(s: State, s': State) {
    && |s'.pending| == |s.pending| && s'.nextId == s.nextId
    && forall k :: 0 <= k < |s.pending| ==> s'.pending[k].id == s.pending[k].id
  }

  lemma IdsInRequests(s: State, s': State)
    requires T.IdsOk(Requests(s.pending), s.nextId) && SameIds(s, s')
    ensures T.IdsOk(Requests(s'.pending), s'.nextId)
  {
    assert forall k :: 0 <= k < |s'.pending| ==> Requests(s'.pending)[k].id == Requests(s.pending)[k].id;
  }

  lemma IdsAfterCheck(s: State)
    requires Enabled(s, LockStep)
    ensures SameIds(s, Validate(s))
  {
  }

  lemma IdsAfterOthers(s: State, e: Event)
    requires Enabled(s, e) && !e.Remove? && !e.Register? && !e.LockStep?
    ensures SameIds(s, Apply(s, e))
  {
  }

  lemma IdsKept(s: State, e: Event)
    requires T.IdsOk(Requests(s.pending), s.nextId) && Enabled(s, e)
    ensures T.IdsOk(Requests(Apply(s, e).pending), Apply(s, e).nextId)
  {
    if e.Remove? {
      RequestsAt(s.pending, e.k);
    } else if e.Register? {
      RegisterRefines(s);
    } else {
      if e.LockStep? { IdsAfterCheck(s); } else { IdsAfterOthers(s, e); }
      IdsInRequests(s, Apply(s, e));
    }
  }

  lemma {:induction false} RunKeepsIds(s: State, es: seq<Event>)
    requires T.IdsOk(Requests(s.pending), s.nextId) && ValidRun(s, es)
    ensures T.IdsOk(Requests(Outcome(s, es).pending), Outcome(s, es).nextId)
    decreases |es|
  {
    if es != [] {
      IdsKept(s, es[0]);
      RunKeepsIds(Apply(s, es[0]), es[1..]);
    }
  }

  /** In every reachable state requests are told apart by their ids. */
  lemma ReachableIds(s: State)
    requires Reachable(s)
    ensures T.IdsOk(Requests(s.pending), s.nextId)
  {
    var s0, es :| Init(s0) && ValidRun(s0, es) && Outcome(s0, es) == s;
    RunKeepsIds(s0, es);
  }
}
