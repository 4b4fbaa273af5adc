/**
 The delay-hook manager against the loader: images come and go (also at the same
 base), the notice of an unload and the unmapping are two steps, the notification finds
 the lock free or busy or is not registered, and `lock_manager` re-validates every
 installed hook in single steps while all this goes on.

 A hook carries history the program does not have: the generation of the image it was
 installed into, and whether a notice of that image's unload is still due or what became
 of it. A request carries what the validation under way, or the last one, found.
 */
module DelayManager {
  import opened Options

  type Addr = nat
  const INT3 := 0xCC

  /** `leaving`: the loader has begun to unload it, and it is still mapped. */
  datatype Image = Image(size: nat, gen: nat, leaving: bool)

  /** The notice of a hook's image leaving. */
  datatype Notice =
    | Due         // still to come, or flagged as missed and not yet taken up
    | Silent      // none was given: no notification was registered
    | Swallowed   // it was flagged, and the flag was taken while the image was still mapped
    | Late        // it had been given before the hook was installed

  datatype Hook = Hook(target: Addr, base: Addr, saved: int, gen: nat, notice: Notice)

  /** What a validation did about a request that had a hook when it began; `stale`: the image was gone by then. */
  datatype Check =
    | NoCheck
    | Begun(stale: bool)
    | Found(stale: bool, mapped: bool, looked: bool)

  datatype Pending = Pending(id: nat, hook: Option<Hook>, check: Check)

  /** Where the lock holder is inside `lock_manager`; `Body` is the code that runs under the lock. */
  datatype Lock =
    | Free
    | SwapMissed
    | LoadFlag
    | CheckBase(i: nat, missed: bool)
    | CheckByte(i: nat, missed: bool)
    | Body(missed: bool)

  /** `missed` is UNLOAD_MISSED, `notified` is UNLOAD_NOTIFIED, `live` whether the loader calls us back. */
  datatype State = State(
    images: map<Addr, Image>,
    bytes: map<Addr, int>,
    nextGen: nat,
    pending: seq<Pending>,
    nextId: nat,
    missed: bool,
    notified: bool,
    live: bool,
    lock: Lock)

  datatype Event =
    | Load(base: Addr, size: nat, content: map<Addr, int>)
    | Notify(base: Addr)
    | Unmap(base: Addr)
    | SetNotification(notified: bool, live: bool)
    | Acquire
    | LockStep
    | Register
    | Install(k: nat, base: Addr, target: Addr)
    | Remove(k: nat)
    | Unlock

  predicate InImage(s: State, base: Addr, a: Addr) {
    base in s.images && base <= a < base + s.images[base].size
  }

  /** The hook's image is the one it was installed into. */
  predicate Intact(s: State, h: Hook) {
    h.base in s.images && s.images[h.base].gen == h.gen
  }

  /** It is, and the loader has begun to unload it. */
  predicate Leaving(s: State, h: Hook) {
    Intact(s, h) && s.images[h.base].leaving
  }

  function DropHook(p: Pending): Pending {
    p.(hook := None)
  }

  predicate HookedIn(s: State, p: Pending, base: Addr) {
    p.hook.Some? && InImage(s, base, p.hook.value.target)
  }

  /** `on_dll_notification` with the lock free: drop the hooks in the unloaded image. */
  function DropIn(s: State, base: Addr): seq<Pending> {
    seq(|s.pending|, k requires 0 <= k < |s.pending| =>
      if HookedIn(s, s.pending[k], base) then DropHook(s.pending[k]) else s.pending[k])
  }

  /** An unload nobody is told about. */
  function MarkSilent(s: State, base: Addr): seq<Pending> {
    seq(|s.pending|, k requires 0 <= k < |s.pending| =>
      if HookedIn(s, s.pending[k], base)
      then s.pending[k].(hook := Some(s.pending[k].hook.value.(notice := Silent))) else s.pending[k])
  }

  /** The missed flag is taken: for images that are still mapped that is too early. */
  function TakeNotice(s: State, h: Hook): Hook {
    if s.missed && Leaving(s, h) then h.(notice := Swallowed) else h
  }

  /** The validation begins: remembers which hooks are stale. */
  function BeginCheck(s: State): seq<Pending> {
    seq(|s.pending|, k requires 0 <= k < |s.pending| =>
      match s.pending[k].hook
      case None => s.pending[k].(check := NoCheck)
      case Some(h) => s.pending[k].(hook := Some(TakeNotice(s, h)), check := Begun(!Intact(s, h))))
  }

  /** The loader begins to unload an image: `on_dll_notification` runs if it is registered. */
  function AfterNotify(s: State, base: Addr): State
    requires base in s.images
  {
    var s1 :=
      if !s.live then s.(pending := MarkSilent(s, base))
      else if s.lock.Free? then s.(pending := DropIn(s, base))
      else s.(missed := true);
    s1.(images := s.images[base := s.images[base].(leaving := true)])
  }

  function AfterUnmap(s: State, base: Addr): State {
    s.(images := s.images - {base}, bytes := map a | a in s.bytes && !InImage(s, base, a) :: s.bytes[a])
  }

  function AfterLoad(s: State, base: Addr, size: nat, content: map<Addr, int>): State {
    s.(images := s.images[base := Image(size, s.nextGen, false)], nextGen := s.nextGen + 1, bytes := s.bytes + content)
  }

  /** Whether the hook was stale when the validation began. */
  function WasStale(p: Pending): bool { (p.check.Begun? || p.check.Found?) && p.check.stale }

  /** `still_installed`, first half: is the recorded image still mapped around the target? */
  function CheckImage(s: State): State
    requires s.lock.CheckBase? && s.lock.i < |s.pending|
  {
    var CheckBase(i, missed) := s.lock;
    var p := s.pending[i];
    if p.hook.None? then s.(lock := CheckBase(i + 1, missed))
    else
      var mapped := p.hook.value.base != 0 && InImage(s, p.hook.value.base, p.hook.value.target);
      var q := p.(check := Found(WasStale(p), mapped, false));
      if !mapped then s.(pending := s.pending[i := DropHook(q)], lock := CheckBase(i + 1, missed))
      else if missed then s.(pending := s.pending[i := q], lock := CheckByte(i, missed))
      else s.(pending := s.pending[i := q], lock := CheckBase(i + 1, missed))
  }

  /** `still_installed`, second half: is the 0xCC still there? */
  function CheckEntryByte(s: State): State
    requires s.lock.CheckByte? && s.lock.i < |s.pending| && s.pending[s.lock.i].hook.Some?
  {
    var CheckByte(i, missed) := s.lock;
    var p := s.pending[i];
    var a := p.hook.value.target;
    var q := p.(check := Found(WasStale(p), true, true));
    var kept := a in s.bytes && s.bytes[a] == INT3;
    s.(pending := s.pending[i := if kept then q else DropHook(q)], lock := CheckBase(i + 1, missed))
  }

  /** One step of `lock_manager`. */
  function Validate(s: State): State
    requires !s.lock.Free? && !s.lock.Body?
    requires s.lock.CheckByte? ==> s.lock.i < |s.pending| && s.pending[s.lock.i].hook.Some?
  {
    match s.lock
    case SwapMissed =>
      s.(missed := false, pending := BeginCheck(s), lock := if s.missed then CheckBase(0, true) else LoadFlag)
    case LoadFlag => s.(lock := CheckBase(0, !s.notified))
    case CheckBase(i, missed) => if i >= |s.pending| then s.(lock := Body(missed)) else CheckImage(s)
    case CheckByte(i, missed) => CheckEntryByte(s)
  }

  predicate Targets(s: State, a: Addr) {
    exists k :: 0 <= k < |s.pending| && s.pending[k].hook.Some? && s.pending[k].hook.value.target == a
  }

  predicate Enabled(s: State, e: Event) {
    match e
    case Load(base, size, content) =>
      && base > 0 && base !in s.images
      && (forall b :: b in s.images ==> b + s.images[b].size <= base || base + size <= b)
      && (forall a :: a in content ==> base <= a < base + size && (Targets(s, a) ==> content[a] != INT3))
      && (forall a :: base <= a < base + size ==> a in content)
    case Notify(base) => base in s.images && !s.images[base].leaving
    case Unmap(base) => base in s.images && s.images[base].leaving
    case SetNotification(_, _) => true
    case Acquire => s.lock.Free?
    case LockStep =>
      && !s.lock.Free? && !s.lock.Body?
      && (s.lock.CheckByte? ==> s.lock.i < |s.pending| && s.pending[s.lock.i].hook.Some?)
    case Register => s.lock.Body?
    case Install(k, base, a) =>
      s.lock.Body? && k < |s.pending| && s.pending[k].hook.None? && InImage(s, base, a) && a in s.bytes &&
          !Targets(s, a)
    case Remove(k) => s.lock.Body? && k < |s.pending|
    case Unlock => s.lock.Body?
  }

  function NewHook(s: State, base: Addr, a: Addr): Hook
    requires base in s.images && a in s.bytes
  {
    Hook(a, base, s.bytes[a], s.images[base].gen, if s.images[base].leaving then Late else Due)
  }

  function AfterInstall(s: State, k: nat, base: Addr, a: Addr): State
    requires k < |s.pending| && base in s.images && a in s.bytes
  {
    s.(bytes := s.bytes[a := INT3],
       pending := s.pending[k := s.pending[k].(hook := Some(NewHook(s, base, a)), check := NoCheck)])
  }

  /** `unhook` writes the saved byte back, if the address is mapped. */
  function AfterRemove(s: State, k: nat): State
    requires k < |s.pending|
  {
    var h := s.pending[k].hook;
    s.(pending := s.pending[..k] + s.pending[k + 1..],
       bytes := if h.Some? && h.value.target in s.bytes then s.bytes[h.value.target := h.value.saved] else s.bytes)
  }

  function Apply(s: State, e: Event): State
    requires Enabled(s, e)
  {
    match e
    case Load(base, size, content) => AfterLoad(s, base, size, content)
    case Notify(base) => AfterNotify(s, base)
    case Unmap(base) => AfterUnmap(s, base)
    case SetNotification(notified, live) => s.(notified := notified, live := live)
    case Acquire => s.(lock := SwapMissed)
    case LockStep => Validate(s)
    case Register => s.(pending := s.pending + [Pending(s.nextId, None, NoCheck)], nextId := s.nextId + 1)
    case Install(k, base, a) => AfterInstall(s, k, base, a)
    case Remove(k) => AfterRemove(s, k)
    case Unlock => s.(lock := Free)
  }

  predicate Init(s: State) {
    && s.images == map[] && s.bytes == map[] && s.pending == [] && s.lock.Free?
    && !s.missed && !s.notified && !s.live && s.nextGen == 0 && s.nextId == 1
  }

  // -------------------------------------------------------------- invariant

  ghost predicate LoaderInv(s: State) {
    && (forall b :: b in s.images ==> b > 0 && s.images[b].gen < s.nextGen)
    && (forall b, c :: b in s.images && c in s.images && b != c ==>
          b + s.images[b].size <= c || c + s.images[c].size <= b)
    && (forall b, a :: b in s.images && b <= a < b + s.images[b].size ==> a in s.bytes)
  }

  /** An intact hook's byte is there; at a stale hook's target there is no 0xCC. */
  predicate HookInv(s: State, h: Hook) {
    && h.base > 0 && h.gen < s.nextGen
    && (if Intact(s, h) then InImage(s, h.base, h.target) && h.target in s.bytes && s.bytes[h.target] == INT3
        else h.target in s.bytes ==> s.bytes[h.target] != INT3)
  }

  /** The validation under way will still look at hook `k`, byte included. */
  predicate WillCheck(s: State, k: nat) {
    (s.lock.CheckBase? || s.lock.CheckByte?) && s.lock.missed && s.lock.i <= k
  }

  /** A hook whose notice is due and whose image is leaving or gone is bound to be looked at. */
  predicate Noticed(s: State, k: nat, h: Hook) {
    h.notice == Due ==>
      && (Leaving(s, h) ==> s.missed)
      && (!Intact(s, h) ==> s.missed || WillCheck(s, k))
  }

  /** The validation has not come to this request yet; `m`: it will look at the byte. */
  predicate Unchecked(s: State, p: Pending, m: bool) {
    match p.hook
    case None => p.check == NoCheck
    case Some(h) => p.check.Begun? && (p.check.stale ==> !Intact(s, h) && (m || h.notice != Due))
  }

  /** It has: a stale hook is gone exactly if its image was not mapped or its byte was looked at. */
  predicate Settled(s: State, p: Pending, m: bool) {
    match p.check
    case NoCheck => p.hook.None?
    case Begun(_) => false
    case Found(stale, mapped, looked) =>
      && (looked <==> mapped && m)
      && (stale ==> (p.hook.None? <==> !mapped || looked))
      && (stale && p.hook.Some? ==> !Intact(s, p.hook.value) && p.hook.value.notice != Due)
  }

  /** Its image was mapped, and the byte is next. */
  predicate HalfChecked(s: State, p: Pending) {
    p.check.Found? && p.check.mapped && !p.check.looked && p.hook.Some? && (p.check.stale ==> !Intact(s, p.hook.value))
  }

  predicate CheckInv(s: State, k: nat)
    requires k < |s.pending|
  {
    var p := s.pending[k];
    match s.lock
    case LoadFlag => Unchecked(s, p, false)
    case CheckBase(i, m) => if k < i then Settled(s, p, m) else Unchecked(s, p, m)
    case CheckByte(i, m) =>
      if k < i then Settled(s, p, m) else if k == i then HalfChecked(s, p) else Unchecked(s, p, m)
    case Body(m) => p.check == NoCheck || Settled(s, p, m)
    case _ => true
  }

  predicate PendingInv(s: State, k: nat)
    requires k < |s.pending|
  {
    && CheckInv(s, k)
    && (s.pending[k].hook.Some? ==>
          HookInv(s, s.pending[k].hook.value) && Noticed(s, k, s.pending[k].hook.value))
  }

  ghost predicate Distinct(s: State) {
    forall j, k :: 0 <= j < k < |s.pending| && s.pending[j].hook.Some? && s.pending[k].hook.Some? ==>
      s.pending[j].hook.value.target != s.pending[k].hook.value.target
  }

  ghost predicate Inv(s: State) {
    && LoaderInv(s) && Distinct(s)
    && (s.lock.CheckByte? ==> s.lock.i < |s.pending| && s.pending[s.lock.i].hook.Some? && s.lock.missed)
    && forall k :: 0 <= k < |s.pending| ==> PendingInv(s, k)
  }

  lemma KeptByLoad(s: State, base: Addr, size: nat, content: map<Addr, int>)
    requires Inv(s) && Enabled(s, Load(base, size, content))
    ensures Inv(AfterLoad(s, base, size, content))
  {
    var s' := AfterLoad(s, base, size, content);
    forall k | 0 <= k < |s.pending| ensures PendingInv(s', k) {
      assert PendingInv(s, k);
      if s.pending[k].hook.Some? { assert Targets(s, s.pending[k].hook.value.target); }
    }
  }

  lemma ToldOf(s: State, base: Addr, k: nat)
    requires Inv(s) && Enabled(s, Notify(base)) && k < |s.pending| && s.live
    ensures |AfterNotify(s, base).pending| == |s.pending| && PendingInv(AfterNotify(s, base), k)
  {
    assert PendingInv(s, k);
  }

  lemma UntoldOf(s: State, base: Addr, k: nat)
    requires Inv(s) && Enabled(s, Notify(base)) && k < |s.pending| && !s.live
    ensures |AfterNotify(s, base).pending| == |s.pending| && PendingInv(AfterNotify(s, base), k)
  {
    assert PendingInv(s, k);
  }

  lemma NotifyOf(s: State, base: Addr, k: nat)
    requires Inv(s) && Enabled(s, Notify(base)) && k < |s.pending|
    ensures |AfterNotify(s, base).pending| == |s.pending| && PendingInv(AfterNotify(s, base), k)
  {
    if s.live { ToldOf(s, base, k); } else { UntoldOf(s, base, k); }
  }

  lemma KeptByNotify(s: State, base: Addr)
    requires Inv(s) && Enabled(s, Notify(base))
    ensures Inv(AfterNotify(s, base))
  {
    var s' := AfterNotify(s, base);
    assert LoaderInv(s') && Distinct(s');
    forall k | 0 <= k < |s.pending| ensures PendingInv(s', k) {
      NotifyOf(s, base, k);
    }
  }

  lemma KeptByUnmap(s: State, base: Addr)
    requires Inv(s) && Enabled(s, Unmap(base))
    ensures Inv(AfterUnmap(s, base))
  {
    var s' := AfterUnmap(s, base);
    assert LoaderInv(s') && Distinct(s');
    forall k | 0 <= k < |s.pending| ensures PendingInv(s', k) {
      assert PendingInv(s, k);
    }
  }

  lemma KeptBySwap(s: State)
    requires Inv(s) && s.lock.SwapMissed?
    ensures Inv(Validate(s))
  {
    var s' := Validate(s);
    forall k | 0 <= k < |s'.pending| ensures PendingInv(s', k) {
      assert PendingInv(s, k);
    }
  }

  /** Request `i` is settled as `p` and the validation moves on. */
  lemma MovedOn(s: State, p: Pending)
    requires Inv(s) && (s.lock.CheckBase? || s.lock.CheckByte?) && s.lock.i < |s.pending|
    requires p.hook == s.pending[s.lock.i].hook || p.hook.None?
    requires Settled(s, p, s.lock.missed)
    requires p.hook.Some? && s.lock.missed ==> Intact(s, p.hook.value)
    ensures Inv(s.(pending := s.pending[s.lock.i := p], lock := CheckBase(s.lock.i + 1, s.lock.missed)))
  {
    var i := s.lock.i;
    var s' := s.(pending := s.pending[i := p], lock := CheckBase(i + 1, s.lock.missed));
    forall k | 0 <= k < |s'.pending| ensures PendingInv(s', k) {
      if k == i {
        assert PendingInv(s, i);
      } else {
        OtherMovedPast(s, p, k);
      }
    }
  }

  lemma OtherMovedPast(s: State, p: Pending, k: nat)
    requires Inv(s) && (s.lock.CheckBase? || s.lock.CheckByte?) && s.lock.i < |s.pending|
    requires k < |s.pending| && k != s.lock.i
    ensures PendingInv(s.(pending := s.pending[s.lock.i := p], lock := CheckBase(s.lock.i + 1, s.lock.missed)), k)
  {
    assert PendingInv(s, k);
  }

  lemma KeptOnTheWay(s: State, p: Pending)
    requires Inv(s) && s.lock.CheckBase? && s.lock.missed && s.lock.i < |s.pending|
    requires p.hook == s.pending[s.lock.i].hook && HalfChecked(s, p)
    ensures Inv(s.(pending := s.pending[s.lock.i := p], lock := CheckByte(s.lock.i, true)))
  {
    var s' := s.(pending := s.pending[s.lock.i := p], lock := CheckByte(s.lock.i, true));
    forall k | 0 <= k < |s'.pending| ensures PendingInv(s', k) {
      assert PendingInv(s, k);
    }
  }

  lemma KeptByImageCheck(s: State)
    requires Inv(s) && s.lock.CheckBase? && s.lock.i < |s.pending|
    ensures Inv(CheckImage(s))
  {
    var i, p := s.lock.i, s.pending[s.lock.i];
    assert PendingInv(s, i);
    assert s.pending[i := p] == s.pending;
    if CheckImage(s).lock.CheckByte? {
      KeptOnTheWay(s, CheckImage(s).pending[i]);
    } else {
      MovedOn(s, CheckImage(s).pending[i]);
    }
  }

  lemma KeptByByteCheck(s: State)
    requires Inv(s) && s.lock.CheckByte?
    ensures Inv(CheckEntryByte(s))
  {
    assert PendingInv(s, s.lock.i);
    MovedOn(s, CheckEntryByte(s).pending[s.lock.i]);
  }

  lemma KeptByCheckStart(s: State)
    requires Inv(s) && (s.lock.LoadFlag? || (s.lock.CheckBase? && s.lock.i >= |s.pending|))
    ensures Inv(Validate(s))
  {
    var s' := Validate(s);
    forall k | 0 <= k < |s'.pending| ensures PendingInv(s', k) {
      assert PendingInv(s, k);
    }
  }

  lemma KeptByValidate(s: State)
    requires Inv(s) && Enabled(s, LockStep)
    ensures Inv(Validate(s))
  {
    match s.lock
    case SwapMissed => KeptBySwap(s);
    case CheckByte(_, _) => KeptByByteCheck(s);
    case CheckBase(i, _) => if i < |s.pending| { KeptByImageCheck(s); } else { KeptByCheckStart(s); }
    case LoadFlag => KeptByCheckStart(s);
  }

  lemma KeptByInstall(s: State, k: nat, base: Addr, a: Addr)
    requires Inv(s) && Enabled(s, Install(k, base, a))
    ensures Inv(AfterInstall(s, k, base, a))
  {
    var s' := AfterInstall(s, k, base, a);
    forall j | 0 <= j < |s'.pending| ensures PendingInv(s', j) {
      assert PendingInv(s, j);
    }
  }

  lemma KeptByRemove(s: State, k: nat)
    requires Inv(s) && Enabled(s, Remove(k))
    ensures Inv(AfterRemove(s, k))
  {
    var s' := AfterRemove(s, k);
    forall j | 0 <= j < |s'.pending| ensures PendingInv(s', j) {
      assert PendingInv(s, if j < k then j else j + 1);
    }
  }

  lemma KeptByRegister(s: State)
    requires Inv(s) && Enabled(s, Register)
    ensures Inv(Apply(s, Register))
  {
    var s' := Apply(s, Register);
    forall k | 0 <= k < |s'.pending| ensures PendingInv(s', k) {
      if k < |s.pending| { assert PendingInv(s, k); }
    }
  }

  lemma KeptByRest(s: State, e: Event)
    requires Inv(s) && Enabled(s, e) && (e.SetNotification? || e.Acquire? || e.Unlock?)
    ensures Inv(Apply(s, e))
  {
    var s' := Apply(s, e);
    forall k | 0 <= k < |s'.pending| ensures PendingInv(s', k) {
      assert PendingInv(s, k);
    }
  }

  lemma KeptByEvent(s: State, e: Event)
    requires Inv(s) && Enabled(s, e)
    ensures Inv(Apply(s, e))
  {
    match e
    case Load(base, size, content) => KeptByLoad(s, base, size, content);
    case Notify(base) => KeptByNotify(s, base);
    case Unmap(base) => KeptByUnmap(s, base);
    case LockStep => KeptByValidate(s);
    case Install(k, base, a) => KeptByInstall(s, k, base, a);
    case Remove(k) => KeptByRemove(s, k);
    case Register => KeptByRegister(s);
    case _ => KeptByRest(s, e);
  }

  // ------------------------------------------------------------- whole runs

  predicate ValidRun(s: State, es: seq<Event>)
    decreases |es|
  {
    es == [] || (Enabled(s, es[0]) && ValidRun(Apply(s, es[0]), es[1..]))
  }

  function Outcome(s: State, es: seq<Event>): State
    requires ValidRun(s, es)
    decreases |es|
  {
    if es == [] then s else Outcome(Apply(s, es[0]), es[1..])
  }

  ghost predicate Reachable(s: State) {
    exists s0, es :: Init(s0) && ValidRun(s0, es) && Outcome(s0, es) == s
  }

  lemma {:induction false} RunKeepsInv(s: State, es: seq<Event>)
    requires Inv(s) && ValidRun(s, es)
    ensures Inv(Outcome(s, es))
    decreases |es|
  {
    if es != [] {
      KeptByEvent(s, es[0]);
      RunKeepsInv(Apply(s, es[0]), es[1..]);
    }
  }

  lemma ReachableInv(s: State)
    requires Reachable(s)
    ensures Inv(s)
  {
    var s0, es :| Init(s0) && ValidRun(s0, es) && Outcome(s0, es) == s;
    RunKeepsInv(s0, es);
  }

  /**
   What becomes of a hook whose image was gone when `lock_manager` began: when it returns
   the hook is dropped if and only if its base was not mapped around the target when it
   was checked, or the byte was looked at; and the byte of a mapped one is looked at
   exactly if the call found the missed flag up or the notification flag down.
   */
  lemma StaleHookFate(s: State, k: nat)
    requires Reachable(s) && s.lock.Body? && k < |s.pending| && s.pending[k].check.Found?
    ensures var Found(stale, mapped, looked) := s.pending[k].check;
            && (stale ==> (s.pending[k].hook.None? <==> !mapped || looked))
            && (looked <==> mapped && s.lock.missed)
  {
    ReachableInv(s);
    assert PendingInv(s, k);
  }

  /**
   Such a hook survives only if the call did not look at bytes and no notice of the
   unload was left for it: none was given, or the flag was taken while the image was
   still mapped, or it had been given before the hook was installed.
   */
  lemma StaleHookDoesNotSurvive(s: State, k: nat)
    requires Reachable(s) && s.lock.Body? && k < |s.pending| && s.pending[k].hook.Some?
    requires s.pending[k].check.Found? && s.pending[k].check.stale
    ensures !s.lock.missed && s.pending[k].hook.value.notice != Due
  {
    ReachableInv(s);
    assert PendingInv(s, k);
  }

  /** A call that looks at bytes leaves no stale hook. */
  lemma ByteCheckLeavesNothingStale(s: State)
    requires Reachable(s) && s.lock == Body(true)
    ensures forall k :: 0 <= k < |s.pending| && s.pending[k].hook.Some? && s.pending[k].check.Found? ==>
              !s.pending[k].check.stale
  {
    forall k | 0 <= k < |s.pending| && s.pending[k].hook.Some? && s.pending[k].check.Found?
      ensures !s.pending[k].check.stale
    {
      StaleHookFate(s, k);
    }
  }

  /** The check of a stale hook whose base is mapped again drops it exactly if the byte is looked at. */
  lemma StaleCheckIsExact(s: State)
    requires Reachable(s) && s.lock.CheckBase? && s.lock.i < |s.pending| && s.pending[s.lock.i].hook.Some?
    requires !Intact(s, s.pending[s.lock.i].hook.value)
    requires InImage(s, s.pending[s.lock.i].hook.value.base, s.pending[s.lock.i].hook.value.target)
    ensures var s1 := Validate(s);
            if s.lock.missed
            then s1.lock == CheckByte(s.lock.i, true) && Validate(s1).pending[s.lock.i].hook.None?
            else s1.pending[s.lock.i].hook == s.pending[s.lock.i].hook
  {
    ReachableInv(s);
    assert PendingInv(s, s.lock.i);
  }

  function Unmarked(h: Hook): Hook { h.(notice := Due) }

  /** Validation never drops a hook whose image is still there. */
  lemma ValidationKeepsIntact(s: State, k: nat)
    requires Reachable(s) && Enabled(s, LockStep) && k < |s.pending|
    requires s.pending[k].hook.Some? && Intact(s, s.pending[k].hook.value)
    ensures |Validate(s).pending| == |s.pending| && Validate(s).pending[k].hook.Some?
    ensures Unmarked(Validate(s).pending[k].hook.value) == Unmarked(s.pending[k].hook.value)
  {
    ReachableInv(s);
    assert PendingInv(s, k);
  }

  /** What the event makes of the notice of a hook it leaves in place. */
  function NoticeAfter(s: State, e: Event, h: Hook): Notice {
    if e.Notify? && !s.live && InImage(s, e.base, h.target) then Silent
    else if e.LockStep? && s.lock.SwapMissed? && s.missed && Leaving(s, h) then Swallowed
    else h.notice
  }

  /** The hook at `k` is the one from before, or a new one. */
  predicate HookFrom(s: State, e: Event, s': State, k: nat)
    requires k < |s.pending| && k < |s'.pending| && s'.pending[k].hook.Some?
  {
    var h' := s'.pending[k].hook.value;
    match s.pending[k].hook
    case None => e.Install? && e.base in s.images && h'.notice == if s.images[e.base].leaving then Late else Due
    case Some(h) => h' == h.(notice := NoticeAfter(s, e, h))
  }

  lemma HookFromBegin(s: State, k: nat)
    requires s.lock.SwapMissed? && k < |s.pending|
    ensures |Validate(s).pending| == |s.pending|
    ensures Validate(s).pending[k].hook.Some? ==> HookFrom(s, LockStep, Validate(s), k)
  {
  }

  lemma CheckKeepsHook(s: State, k: nat)
    requires Enabled(s, LockStep) && !s.lock.SwapMissed? && k < |s.pending|
    ensures |Validate(s).pending| == |s.pending|
    ensures Validate(s).pending[k].hook.Some? ==> Validate(s).pending[k].hook == s.pending[k].hook
  {
    if s.lock.CheckBase? && s.lock.i < |s.pending| {
      ImageCheckKeepsHook(s, k);
    }
  }

  lemma ImageCheckKeepsHook(s: State, k: nat)
    requires s.lock.CheckBase? && s.lock.i < |s.pending| && k < |s.pending|
    ensures |CheckImage(s).pending| == |s.pending|
    ensures CheckImage(s).pending[k].hook.Some? ==> CheckImage(s).pending[k].hook == s.pending[k].hook
  {
  }

  lemma HookFromCheck(s: State, k: nat)
    requires Enabled(s, LockStep) && k < |s.pending|
    ensures |Validate(s).pending| == |s.pending|
    ensures Validate(s).pending[k].hook.Some? ==> HookFrom(s, LockStep, Validate(s), k)
  {
    if s.lock.SwapMissed? {
      HookFromBegin(s, k);
    } else {
      CheckKeepsHook(s, k);
    }
  }

  lemma HookFromNotify(s: State, base: Addr, k: nat)
    requires base in s.images && k < |s.pending|
    ensures |AfterNotify(s, base).pending| == |s.pending|
    ensures AfterNotify(s, base).pending[k].hook.Some? ==> HookFrom(s, Notify(base), AfterNotify(s, base), k)
  {
  }

  /** A notice is lost only as its name says: untold, taken too early, or given before the install. */
  lemma NoticeIsLostSo(s: State, e: Event, k: nat)
    requires Enabled(s, e) && !e.Remove? && k < |s.pending|
    ensures k < |Apply(s, e).pending|
    ensures Apply(s, e).pending[k].hook.Some? ==> HookFrom(s, e, Apply(s, e), k)
  {
    if e.LockStep? {
      HookFromCheck(s, k);
    } else if e.Notify? {
      HookFromNotify(s, e.base, k);
    }
  }

  /** Neither does the unload of another image. */
  lemma UnloadKeepsOthers(s: State, base: Addr, k: nat)
    requires Reachable(s) && base in s.images && k < |s.pending|
    requires s.pending[k].hook.Some? && Intact(s, s.pending[k].hook.value) && base != s.pending[k].hook.value.base
    ensures |AfterNotify(s, base).pending| == |s.pending| && AfterNotify(s, base).pending[k] == s.pending[k]
    ensures AfterUnmap(s, base).pending == s.pending && Intact(AfterUnmap(s, base), s.pending[k].hook.value)
  {
    ReachableInv(s);
    assert PendingInv(s, k);
  }

  // ------------------------------------------ the runs the exceptions allow

  lemma {:induction false} RunExtends(s: State, es: seq<Event>, e: Event)
    requires ValidRun(s, es) && Enabled(Outcome(s, es), e)
    ensures ValidRun(s, es + [e]) && Outcome(s, es + [e]) == Apply(Outcome(s, es), e)
    decreases |es|
  {
    if es == [] {
      assert es + [e] == [e] && [e][1..] == [];
      assert ValidRun(Apply(s, e), []) && Outcome(Apply(s, e), []) == Apply(s, e);
    } else {
      RunExtends(Apply(s, es[0]), es[1..], e);
      assert (es + [e])[1..] == es[1..] + [e];
    }
  }

  lemma ReachableNext(s: State, e: Event)
    requires Reachable(s) && Enabled(s, e)
    ensures Reachable(Apply(s, e))
  {
    var s0, es :| Init(s0) && ValidRun(s0, es) && Outcome(s0, es) == s;
    RunExtends(s0, es, e);
  }

  const FRESH := State(map[], map[], 0, [], 1, false, false, false, Free)

  ghost predicate Closed(p: State -> bool) {
    forall s, e {:trigger p(Apply(s, e))} :: p(s) && Enabled(s, e) ==> p(Apply(s, e))
  }

  lemma Next(p: State -> bool, s: State, e: Event) returns (s': State)
    requires Closed(p) && p(s) && Enabled(s, e)
    ensures s' == Apply(s, e) && p(s')
  {
    s' := Apply(s, e);
    assert p(s');
  }

  const BASE := 16

  /** A fresh image of one byte. */
  function OneImage(gen: nat, leaving: bool): map<Addr, Image> { map[BASE := Image(1, gen, leaving)] }

  function OneByte(b: int): map<Addr, int> { map[BASE := b] }

  /** The lock is taken and, with no hook in the list, the body is reached. */
  lemma LockEmpty(p: State -> bool, s: State) returns (s': State)
    requires Closed(p) && p(s) && s.lock.Free? && s.pending == [] && !s.missed
    ensures p(s') && s' == s.(lock := Body(!s.notified))
  {
    s' := Next(p, s, Acquire);
    s' := Next(p, s', LockStep);
    s' := Next(p, s', LockStep);
    s' := Next(p, s', LockStep);
  }

  /** A hook is installed into the image and the lock released. */
  lemma InstallOne(p: State -> bool, s: State) returns (s': State)
    requires Closed(p) && p(s) && s.lock.Body? && s.pending == [] && s.nextId == 1
    requires BASE in s.images && s.images == OneImage(0, s.images[BASE].leaving) && s.bytes == OneByte(0x90)
    ensures p(s') && s'.images == s.images && s'.bytes == OneByte(INT3) && s'.nextGen == s.nextGen
    ensures s'.pending == [Pending(1, Some(Hook(BASE, BASE, 0x90, 0, if s.images[BASE].leaving then Late
              else Due)), NoCheck)]
    ensures s'.missed == s.missed && s'.notified == s.notified && s'.live == s.live && s'.lock == Free
  {
    s' := Next(p, s, Register);
    s' := Next(p, s', Install(0, BASE, BASE));
    s' := Next(p, s', Unlock);
  }

  /** The image is replaced at its base. */
  lemma Replace(p: State -> bool, s: State) returns (s': State)
    requires Closed(p) && p(s) && s.images == OneImage(0, true) && s.bytes.Keys == {BASE} && s.nextGen == 1
    ensures p(s') && s' == s.(images := OneImage(1, false), bytes := OneByte(0x90), nextGen := 2)
  {
    s' := Next(p, s, Unmap(BASE));
    assert s'.images == map[] && s'.bytes == map[];
    s' := Next(p, s', Load(BASE, 1, OneByte(0x90)));
  }

  /** The lock is taken with the notification flag up: the image is there, the byte is not looked at. */
  lemma LockTrusting(p: State -> bool, s: State, h: Hook) returns (s': State)
    requires Closed(p) && p(s) && s.lock.Free? && !s.missed && s.notified && |s.pending| == 1
    requires s.pending[0].hook == Some(h) && h.base == h.target == BASE && h.gen == 0 && s.images == OneImage(1, false)
    ensures p(s') && s'.lock == Body(false) && s'.images == s.images
    ensures |s'.pending| == 1 && s'.pending[0].hook == Some(h) && s'.pending[0].check == Found(true, true, false)
  {
    s' := Next(p, s, Acquire);
    s' := Next(p, s', LockStep);
    s' := Next(p, s', LockStep);
    s' := Next(p, s', LockStep);
    s' := Next(p, s', LockStep);
  }

  lemma FirstImage(p: State -> bool, told: bool) returns (s: State)
    requires Closed(p) && p(FRESH)
    ensures p(s) && s.images == OneImage(0, false) && s.bytes == OneByte(0x90) && s.nextGen == 1 && s.nextId == 1
    ensures s.pending == [] && !s.missed && s.notified == s.live == told && s.lock == Free
  {
    s := Next(p, FRESH, Load(BASE, 1, OneByte(0x90)));
    s := Next(p, s, SetNotification(told, told));
  }

  /** No notification: the image is replaced unannounced, then one is registered, then the lock is taken. */
  lemma SilentRun(p: State -> bool) returns (s: State)
    requires Closed(p) && p(FRESH)
    ensures p(s) && Survives(s, Silent)
  {
    s := FirstImage(p, false);
    s := LockEmpty(p, s);
    s := InstallOne(p, s);
    s := Next(p, s, Notify(BASE));
    s := Replace(p, s);
    s := Next(p, s, SetNotification(true, true));
    s := LockTrusting(p, s, Hook(BASE, BASE, 0x90, 0, Silent));
  }

  /** The notice finds the lock busy, and the next call takes the flag while the image is still mapped. */
  lemma TakenTooEarly(p: State -> bool) returns (s: State)
    requires Closed(p) && p(FRESH)
    ensures p(s) && s.images == OneImage(0, true) && s.bytes == OneByte(INT3) && s.nextGen == 1
    ensures |s.pending| == 1 && s.pending[0].hook == Some(Hook(BASE, BASE, 0x90, 0, Swallowed))
    ensures !s.missed && s.notified && s.lock == Free
  {
    s := FirstImage(p, true);
    s := LockEmpty(p, s);
    s := InstallOne(p, s);
    s := Next(p, s, Acquire);
    s := Next(p, s, Notify(BASE));
    s := Next(p, s, LockStep);
    s := Next(p, s, LockStep);
    s := Next(p, s, LockStep);
    s := Next(p, s, LockStep);
    s := Next(p, s, Unlock);
  }

  lemma SwallowedRun(p: State -> bool) returns (s: State)
    requires Closed(p) && p(FRESH)
    ensures p(s) && Survives(s, Swallowed)
  {
    s := TakenTooEarly(p);
    s := Replace(p, s);
    s := LockTrusting(p, s, Hook(BASE, BASE, 0x90, 0, Swallowed));
  }

  /** The hook is installed into an image whose unload has already been announced. */
  lemma LateRun(p: State -> bool) returns (s: State)
    requires Closed(p) && p(FRESH)
    ensures p(s) && Survives(s, Late)
  {
    s := FirstImage(p, true);
    s := Next(p, s, Notify(BASE));
    assert s.pending == [];
    s := LockEmpty(p, s);
    s := InstallOne(p, s);
    s := Replace(p, s);
    s := LockTrusting(p, s, Hook(BASE, BASE, 0x90, 0, Late));
  }

  /** `lock_manager` has returned and kept a hook that was stale when it began, with this notice. */
  predicate Survives(s: State, notice: Notice) {
    && s.lock.Body? && |s.pending| == 1 && s.pending[0].hook.Some?
    && s.pending[0].check.Found? && s.pending[0].check.stale
    && s.pending[0].hook.value.notice == notice && !Intact(s, s.pending[0].hook.value)
  }

  ghost function AllReachable(): State -> bool { s => Reachable(s) }

  lemma ReachableIsClosed(p: State -> bool)
    requires p == AllReachable()
    ensures Closed(p) && p(FRESH)
  {
    assert Init(FRESH) && ValidRun(FRESH, []) && Outcome(FRESH, []) == FRESH;
    forall s, e | Reachable(s) && Enabled(s, e) ensures Reachable(Apply(s, e)) { ReachableNext(s, e); }
  }

  /** The exceptions are real: a stale hook outlives `lock_manager` after a reload nobody announced, */
  lemma SilentReloadIsMissed()
    ensures exists s :: Reachable(s) && Survives(s, Silent)
  {
    ReachableIsClosed(AllReachable());
    var s := SilentRun(AllReachable());
  }

  /** after a notice whose flag was taken before the image was unmapped, */
  lemma EarlyNoticeIsSwallowed()
    ensures exists s :: Reachable(s) && Survives(s, Swallowed)
  {
    ReachableIsClosed(AllReachable());
    var s := SwallowedRun(AllReachable());
  }

  /** and after an install into an image that was already leaving. */
  lemma LateInstallIsMissed()
    ensures exists s :: Reachable(s) && Survives(s, Late)
  {
    ReachableIsClosed(AllReachable());
    var s := LateRun(AllReachable());
  }
}
