/**
 The lock-free registration of the unload notification: any number of threads
 register and unregister at the same time, one atomic operation or loader call
 per step. The loader may hand out a cookie again once it was unregistered.
 */
module DelayRegistration {

  type Tid = nat
  type Cookie = nat
  const NULL: Cookie := 0

  datatype Pc =
    | Idle
    | CallLoader                  // saw a null cookie
    | Exchange(c: Cookie)         // registered with the loader; publish the cookie
    | RaiseFlag(c: Cookie)        // published
    | Recheck(c: Cookie)          // flag stored; is the cookie still there?
    | LowerFlag                   // it is not
    | DropFlag(taken: Cookie)     // unregister: took the cookie (or null)
    | Unregister(c: Cookie)       // give `c` back to the loader

  /** `cookie` is NOTIFICATION_COOKIE, `flag` is UNLOAD_NOTIFIED, `loader` what the loader has registered. */
  datatype State = State(cookie: Cookie, flag: bool, loader: set<Cookie>, threads: map<Tid, Pc>)

  datatype Event =
    | StartRegister(t: Tid)
    | StartUnregister(t: Tid)
    | Step(t: Tid, ok: bool, handed: Cookie)

  predicate Enabled(s: State, e: Event) {
    && e.t in s.threads
    && match e
       case StartRegister(t) => s.threads[t].Idle?
       case StartUnregister(t) => s.threads[t].Idle?
       case Step(t, ok, handed) =>
         !s.threads[t].Idle? && (s.threads[t].CallLoader? && ok ==> handed != NULL && handed !in s.loader)
  }

  function To(s: State, t: Tid, pc: Pc): State {
    s.(threads := s.threads[t := pc])
  }

  function Apply(s: State, e: Event): State
    requires Enabled(s, e)
  {
    match e
    case StartRegister(t) => if s.cookie != NULL then s else To(s, t, CallLoader)
    case StartUnregister(t) => To(s.(cookie := NULL), t, DropFlag(s.cookie))
    case Step(t, ok, handed) =>
      match s.threads[t]
      case CallLoader => if ok then To(s.(loader := s.loader + {handed}), t, Exchange(handed)) else To(s, t, Idle)
      case Exchange(c) => if s.cookie == NULL then To(s.(cookie := c), t, RaiseFlag(c)) else To(s, t, Unregister(c))
      case RaiseFlag(c) => To(s.(flag := true), t, Recheck(c))
      case Recheck(c) => To(s, t, if s.cookie != c then LowerFlag else Idle)
      case LowerFlag => To(s.(flag := false), t, Idle)
      case DropFlag(c) => To(s.(flag := false), t, if c != NULL then Unregister(c) else Idle)
      case Unregister(c) => To(s.(loader := s.loader - {c}), t, Idle)
  }

  predicate Init(s: State) {
    s.cookie == NULL && !s.flag && s.loader == {} && forall t :: t in s.threads ==> s.threads[t].Idle?
  }

  /** The thread will re-check or clear the flag. */
  predicate Due(pc: Pc) {
    pc.Recheck? || pc.LowerFlag? || pc.DropFlag?
  }

  /** The loader cookie a thread is responsible for, if any. */
  function Held(pc: Pc): Cookie {
    match pc
    case Exchange(c) => c
    case DropFlag(c) => c
    case Unregister(c) => c
    case _ => NULL
  }

  predicate Shaped(pc: Pc) {
    (pc.Exchange? || pc.RaiseFlag? || pc.Recheck? || pc.Unregister?) ==> pc.c != NULL
  }

  ghost predicate ShapeInv(s: State) {
    forall t :: t in s.threads ==> Shaped(s.threads[t])
  }

  /** The flag claims a notification that is gone only while some thread is due to correct it. */
  ghost predicate FlagInv(s: State) {
    s.flag && s.cookie == NULL ==> exists t :: t in s.threads && Due(s.threads[t])
  }

  /** Held cookies are registered, not current, and held by one thread each. */
  ghost predicate HeldInv(s: State) {
    && NULL !in s.loader && (s.cookie != NULL ==> s.cookie in s.loader)
    && (forall t :: t in s.threads && Held(s.threads[t]) != NULL ==>
          Held(s.threads[t]) in s.loader && Held(s.threads[t]) != s.cookie)
    && (forall t, u :: t in s.threads && u in s.threads && t != u && Held(s.threads[t]) != NULL ==>
          Held(s.threads[t]) != Held(s.threads[u]))
  }

  predicate HasHolder(s: State, c: Cookie) {
    exists t :: t in s.threads && Held(s.threads[t]) == c
  }

  /** No loader cookie is forgotten. */
  ghost predicate NoLeak(s: State) {
    forall c :: c in s.loader ==> c == s.cookie || HasHolder(s, c)
  }

  ghost predicate Inv(s: State) {
    ShapeInv(s) && FlagInv(s) && HeldInv(s) && NoLeak(s)
  }

  lemma FlagKept(s: State, e: Event)
    requires Inv(s) && Enabled(s, e)
    ensures ShapeInv(Apply(s, e)) && FlagInv(Apply(s, e))
  {
    var s' := Apply(s, e);
    if s'.flag && s'.cookie == NULL && s.flag && s.cookie == NULL {
      var t :| t in s.threads && Due(s.threads[t]);
      assert t in s'.threads && (t != e.t ==> s'.threads[t] == s.threads[t]);
    }
    assert e.t in s'.threads;
  }

  lemma HeldLive(s: State, e: Event, t: Tid)
    requires Inv(s) && Enabled(s, e) && t in s.threads
    ensures var s' := Apply(s, e);
            t in s'.threads && (Held(s'.threads[t]) != NULL ==>
                Held(s'.threads[t]) in s'.loader && Held(s'.threads[t]) != s'.cookie)
  {
    assert e.t in s.threads && Shaped(s.threads[e.t]);
  }

  lemma HeldApart(s: State, e: Event, t: Tid, u: Tid)
    requires Inv(s) && Enabled(s, e) && t in s.threads && u in s.threads && t != u
    ensures var s' := Apply(s, e);
            Held(s'.threads[t]) != NULL ==> Held(s'.threads[t]) != Held(s'.threads[u])
  {
    assert Shaped(s.threads[e.t]);
  }

  lemma CurrentLive(s: State, e: Event)
    requires Inv(s) && Enabled(s, e)
    ensures var s' := Apply(s, e);
            s'.threads.Keys == s.threads.Keys && NULL !in s'.loader && (s'.cookie != NULL ==> s'.cookie in s'.loader)
  {
    assert Shaped(s.threads[e.t]);
  }

  predicate LiveIn(s: State, t: Tid) {
    t in s.threads && Held(s.threads[t]) != NULL ==> Held(s.threads[t]) in s.loader && Held(s.threads[t]) != s.cookie
  }

  predicate ApartIn(s: State, t: Tid, u: Tid) {
    t in s.threads && u in s.threads && t != u && Held(s.threads[t]) != NULL ==>
        Held(s.threads[t]) != Held(s.threads[u])
  }

  lemma HeldFromParts(s: State)
    requires NULL !in s.loader && (s.cookie != NULL ==> s.cookie in s.loader)
    requires forall t :: LiveIn(s, t)
    requires forall t, u :: ApartIn(s, t, u)
    ensures HeldInv(s)
  {
    forall t | t in s.threads && Held(s.threads[t]) != NULL
      ensures Held(s.threads[t]) in s.loader && Held(s.threads[t]) != s.cookie
    {
      assert LiveIn(s, t);
    }
    forall t, u | t in s.threads && u in s.threads && t != u && Held(s.threads[t]) != NULL
      ensures Held(s.threads[t]) != Held(s.threads[u])
    {
      assert ApartIn(s, t, u);
    }
  }

  lemma HeldKept(s: State, e: Event)
    requires Inv(s) && Enabled(s, e)
    ensures HeldInv(Apply(s, e))
  {
    CurrentLive(s, e);
    forall t ensures LiveIn(Apply(s, e), t) {
      if t in s.threads { HeldLive(s, e, t); }
    }
    forall t, u ensures ApartIn(Apply(s, e), t, u) {
      if t in s.threads && u in s.threads && t != u { HeldApart(s, e, t, u); }
    }
    HeldFromParts(Apply(s, e));
  }

  lemma HolderKept(s: State, e: Event, c: Cookie)
    requires Inv(s) && Enabled(s, e) && c in s.loader && c in Apply(s, e).loader && c != s.cookie
    ensures c == Apply(s, e).cookie || HasHolder(Apply(s, e), c)
  {
    var s' := Apply(s, e);
    var t :| t in s.threads && Held(s.threads[t]) == c;
    assert t in s'.threads && (t != e.t ==> s'.threads[t] == s.threads[t]);
  }

  lemma NoLeakKept(s: State, e: Event)
    requires Inv(s) && Enabled(s, e)
    ensures NoLeak(Apply(s, e))
  {
    var s' := Apply(s, e);
    assert e.t in s'.threads;
    forall c | c in s'.loader ensures c == s'.cookie || HasHolder(s', c) {
      if c in s.loader && c != s.cookie { HolderKept(s, e, c); }
    }
  }

  lemma KeptByEvent(s: State, e: Event)
    requires Inv(s) && Enabled(s, e)
    ensures Inv(Apply(s, e))
  {
    FlagKept(s, e);
    HeldKept(s, e);
    NoLeakKept(s, e);
  }

  predicate ValidRun(s: State, es: seq<Event>)
    decreases |es|
  {
    es == [] || (Enabled(s, es[0]) && ValidRun(Apply(s, es[0]), es[1..]))
  }

  function Outcome(s: State, es: seq<Event>): State
    requires ValidRun(s, es)
    decreases |es|
  {
    if es == [] then s else Outcome(Apply(s, es[0]), es[1..])
  }

  ghost predicate Reachable(s: State) {
    exists s0, es :: Init(s0) && ValidRun(s0, es) && Outcome(s0, es) == s
  }

  lemma {:induction false} RunKeepsInv(s: State, es: seq<Event>)
    requires Inv(s) && ValidRun(s, es)
    ensures Inv(Outcome(s, es))
    decreases |es|
  {
    if es != [] {
      KeptByEvent(s, es[0]);
      RunKeepsInv(Apply(s, es[0]), es[1..]);
    }
  }

  lemma ReachableInv(s: State)
    requires Reachable(s)
    ensures Inv(s)
  {
    var s0, es :| Init(s0) && ValidRun(s0, es) && Outcome(s0, es) == s;
    RunKeepsInv(s0, es);
  }

  /** "Flag set, cookie null" exists only while some thread is still due to re-check or clear it. */
  lemma FalseClaimIsTransient(s: State)
    requires Reachable(s) && s.flag && s.cookie == NULL
    ensures exists t :: t in s.threads && Due(s.threads[t])
  {
    ReachableInv(s);
  }

  /** Every cookie the loader holds is the current one or one thread's to unregister. */
  lemma CookiesAreOwned(s: State, c: Cookie)
    requires Reachable(s) && c in s.loader
    ensures c == s.cookie <==> !HasHolder(s, c)
    ensures forall t, u :: t in s.threads && u in s.threads && Held(s.threads[t]) == c == Held(s.threads[u]) ==> t == u
  {
    ReachableInv(s);
  }

  /** With no call in progress a raised flag means a live notification, and nothing else is registered. */
  lemma QuiescentStateIsConsistent(s: State)
    requires Reachable(s) && forall t :: t in s.threads ==> s.threads[t].Idle?
    ensures s.flag ==> s.cookie != NULL
    ensures s.loader == if s.cookie == NULL then {} else {s.cookie}
  {
    ReachableInv(s);
  }
}
