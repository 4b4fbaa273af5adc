/**
 What a registration and an unregistration achieve: their outcome when nothing else
 happens, and in every interleaving when a live notification can lose its flag.
 */
module DelayRegistrationRuns {
  import opened DelayRegistration

  /** The events `es` lead from `s` to `s'`. */
  ghost predicate Leads(s: State, es: seq<Event>, s': State) {
    ValidRun(s, es) && Outcome(s, es) == s'
  }

  lemma LeadsNowhere(s: State)
    ensures Leads(s, [], s)
  {
  }

  lemma LeadsOn(s: State, e: Event, es: seq<Event>, s': State)
    requires Enabled(s, e) && Leads(Apply(s, e), es, s')
    ensures Leads(s, [e] + es, s')
  {
    assert ([e] + es)[1..] == es;
  }

  // ------------------------------------------------------- undisturbed calls

  /** A registration publishes the cookie the loader hands out and raises the flag. */
  lemma RegisterPublishes(s: State, t: Tid, handed: Cookie)
    requires Enabled(s, StartRegister(t)) && s.cookie == NULL && handed != NULL && handed !in s.loader
    ensures var e := Step(t, true, handed);
            Leads(s, [StartRegister(t), e, e, e, e], s.(cookie := handed, flag := true, loader := s.loader + {handed}))
  {
    var e := Step(t, true, handed);
    var s1 := Apply(s, StartRegister(t));
    var s2 := Apply(s1, e);
    var s3 := Apply(s2, e);
    var s4 := Apply(s3, e);
    var s5 := Apply(s4, e);
    assert s5.threads == s.threads;
    LeadsNowhere(s5);
    LeadsOn(s4, e, [], s5);
    LeadsOn(s3, e, [e], s5);
    LeadsOn(s2, e, [e, e], s5);
    LeadsOn(s1, e, [e, e, e], s5);
    LeadsOn(s, StartRegister(t), [e, e, e, e], s5);
  }

  /** One that finds a cookie, or that the loader refuses, changes nothing. */
  lemma RegisterLeavesAlone(s: State, t: Tid, handed: Cookie)
    requires Enabled(s, StartRegister(t))
    ensures s.cookie != NULL ==> Leads(s, [StartRegister(t)], s)
    ensures s.cookie == NULL ==> Leads(s, [StartRegister(t), Step(t, false, handed)], s)
  {
    var s1 := Apply(s, StartRegister(t));
    if s.cookie != NULL {
      LeadsNowhere(s);
      LeadsOn(s, StartRegister(t), [], s);
    } else {
      var s2 := Apply(s1, Step(t, false, handed));
      assert s2.threads == s.threads;
      LeadsNowhere(s2);
      LeadsOn(s1, Step(t, false, handed), [], s2);
      LeadsOn(s, StartRegister(t), [Step(t, false, handed)], s2);
    }
  }

  /** One whose cookie another thread's has forestalled gives it back. */
  lemma RegisterGivesBack(s: State, t: Tid, e: Event)
    requires e.Step? && e.t == t && Enabled(s, e) && s.cookie != NULL
    requires s.threads[t].Exchange? && s.threads[t].c in s.loader
    ensures Leads(s, [e, e], s.(loader := s.loader - {s.threads[t].c}, threads := s.threads[t := Idle]))
  {
    var s1 := Apply(s, e);
    var s2 := Apply(s1, e);
    LeadsNowhere(s2);
    LeadsOn(s1, e, [], s2);
    LeadsOn(s, e, [e], s2);
  }

  /** An unregistration takes the cookie and the flag and gives the cookie back. */
  lemma UnregisterTakesBack(s: State, t: Tid, e: Event)
    requires Reachable(s) && Enabled(s, StartUnregister(t)) && e.Step? && e.t == t
    ensures Leads(s, if s.cookie == NULL then [StartUnregister(t), e] else [StartUnregister(t), e, e],
                  s.(cookie := NULL, flag := false, loader := s.loader - {s.cookie}))
  {
    var s1 := Apply(s, StartUnregister(t));
    var s2 := Apply(s1, e);
    ReachableInv(s);
    if s.cookie == NULL {
      LeadsNowhere(s2);
      LeadsOn(s1, e, [], s2);
      LeadsOn(s, StartUnregister(t), [e], s2);
      assert s2.threads == s.threads;
      assert s.loader - {NULL} == s.loader;
    } else {
      var s3 := Apply(s2, e);
      assert s3.threads == s.threads;
      LeadsNowhere(s3);
      LeadsOn(s2, e, [], s3);
      LeadsOn(s1, e, [e], s3);
      LeadsOn(s, StartUnregister(t), [e, e], s3);
    }
  }

  // ------------------------------------------- the flag of a live notification

  /** A thread that will lower the flag although the cookie is not its own. */
  predicate Straggles(s: State, t: Tid) {
    t in s.threads &&
    match s.threads[t]
    case DropFlag(_) => true
    case LowerFlag => true
    case RaiseFlag(c) => c != s.cookie
    case Recheck(c) => c != s.cookie
    case _ => false
  }

  ghost predicate NoStraggler(s: State) {
    forall t :: !Straggles(s, t)
  }

  /** The flag is up, or the thread that published the cookie is about to raise it. */
  predicate Raised(s: State) {
    s.flag || exists t :: t in s.threads && s.threads[t] == RaiseFlag(s.cookie)
  }

  /** The notification stays registered over the whole run. */
  predicate KeepsCookie(s: State, es: seq<Event>)
    requires ValidRun(s, es)
    decreases |es|
  {
    es == [] || (Apply(s, es[0]).cookie == s.cookie && KeepsCookie(Apply(s, es[0]), es[1..]))
  }

  lemma RaisedKept(s: State, e: Event)
    requires s.cookie != NULL && Raised(s) && NoStraggler(s) && Enabled(s, e) && Apply(s, e).cookie == s.cookie
    ensures Raised(Apply(s, e)) && NoStraggler(Apply(s, e))
  {
    var s' := Apply(s, e);
    assert !Straggles(s, e.t);
    forall t ensures !Straggles(s', t) {
      assert !Straggles(s, t);
    }
    if !s.flag {
      var t :| t in s.threads && s.threads[t] == RaiseFlag(s.cookie);
      assert t != e.t ==> t in s'.threads && s'.threads[t] == RaiseFlag(s'.cookie);
    }
  }

  lemma {:induction false} StaysRaised(s: State, es: seq<Event>)
    requires s.cookie != NULL && Raised(s) && NoStraggler(s) && ValidRun(s, es) && KeepsCookie(s, es)
    ensures Raised(Outcome(s, es))
    decreases |es|
  {
    if es != [] {
      RaisedKept(s, es[0]);
      StaysRaised(Apply(s, es[0]), es[1..]);
    }
  }

  /** Left alone, a straggler lowers the flag and leaves the cookie. */
  lemma StragglerLowers(s: State, t: Tid) returns (es: seq<Event>)
    requires s.cookie != NULL && Straggles(s, t)
    requires forall u :: u in s.threads ==> s.threads[u] != RaiseFlag(s.cookie)
    ensures ValidRun(s, es) && KeepsCookie(s, es) && !Raised(Outcome(s, es))
    decreases if s.threads[t].RaiseFlag? then 3 else if s.threads[t].Recheck? then 2 else 1
  {
    var e := Step(t, true, 1);
    var rest := [];
    if s.threads[t].RaiseFlag? || s.threads[t].Recheck? {
      rest := StragglerLowers(Apply(s, e), t);
    }
    es := [e] + rest;
    assert es[1..] == rest;
  }

  function Raisers(s: State): set<Tid> {
    set t | t in s.threads && s.threads[t] == RaiseFlag(s.cookie)
  }

  /** First those raise the flag that are about to, then the straggler lowers it. */
  lemma FlagIsLost(s: State, t: Tid) returns (es: seq<Event>)
    requires s.cookie != NULL && Straggles(s, t)
    ensures ValidRun(s, es) && KeepsCookie(s, es) && !Raised(Outcome(s, es))
    decreases |Raisers(s)|
  {
    if u :| u in Raisers(s) {
      var e := Step(u, true, 1);
      assert Raisers(Apply(s, e)) == Raisers(s) - {u};
      var rest := FlagIsLost(Apply(s, e), t);
      es := [e] + rest;
      assert es[1..] == rest;
    } else {
      forall u | u in s.threads ensures s.threads[u] != RaiseFlag(s.cookie) {
        assert u !in Raisers(s);
      }
      es := StragglerLowers(s, t);
    }
  }

  /**
   While a notification stays registered its flag, raised or about to be, can be lost exactly
   if some thread straggles: one whose unregistration took an earlier cookie, or whose own
   cookie was taken before it had raised the flag.
   */
  lemma FlagCanBeLostIff(s: State)
    requires s.cookie != NULL && Raised(s)
    ensures (exists es :: ValidRun(s, es) && KeepsCookie(s, es) && !Raised(Outcome(s, es)))
            <==> exists t :: Straggles(s, t)
  {
    if t :| Straggles(s, t) {
      var es := FlagIsLost(s, t);
    } else {
      forall es | ValidRun(s, es) && KeepsCookie(s, es) ensures Raised(Outcome(s, es)) {
        StaysRaised(s, es);
      }
    }
  }

  // -------------------------------------------------- a notification unflagged

  const FRESH := State(NULL, false, {}, map[0 := Idle, 1 := Idle])

  /**
   With no call in progress a live notification can stand without its flag. A later
   registration finds the cookie and leaves it so; the next unregistration ends it.
   */
  lemma LiveButUnflagged()
    ensures exists s ::
              Reachable(s) && s.cookie != NULL && !s.flag && (forall t :: t in s.threads ==> s.threads[t].Idle?)
              && forall t | t in s.threads :: Apply(s, StartRegister(t)) == s
  {
    var e0, e1 := Step(0, true, 7), Step(1, true, 7);
    var s1 := Apply(FRESH, StartUnregister(0));
    var s2 := Apply(s1, StartRegister(1));
    var s3 := Apply(s2, e1);
    var s4 := Apply(s3, e1);
    var s5 := Apply(s4, e1);
    var s6 := Apply(s5, e1);
    var s7 := Apply(s6, e0);
    LeadsNowhere(s7);
    LeadsOn(s6, e0, [], s7);
    LeadsOn(s5, e1, [e0], s7);
    LeadsOn(s4, e1, [e1, e0], s7);
    LeadsOn(s3, e1, [e1, e1, e0], s7);
    LeadsOn(s2, e1, [e1, e1, e1, e0], s7);
    LeadsOn(s1, StartRegister(1), [e1, e1, e1, e1, e0], s7);
    LeadsOn(FRESH, StartUnregister(0), [StartRegister(1), e1, e1, e1, e1, e0], s7);
    assert Init(FRESH) && Reachable(s7);
  }
}
