/**
 The INT3 breakpoint protocol as a state machine whose steps are the single
 atomic loads and stores of the installer, the unhooker, the handler and the
 in-flight check, interleaved in any order.

 One thread at a time (the "writer") holds the manager lock. Every other thread
 may at any moment trap on a 0xCC byte, execute one load of the handler, spawn a
 thread or exit. `forget` takes no lock and may happen at any moment.

 A trapped thread carries history that the program does not have: the slot its
 hook occupied, the removal of that hook once it is logged, and the hazards that
 befell it. The hazards are exactly the hypotheses under which the protocol
 answers a trap.
 */
module Int3Protocol {
  import opened Options

  type Addr = nat
  type Tid = nat

  const MAX_HOOKS := 256
  const RETIRED_LEN := 1024
  const RELEASE_ATTEMPTS := 5
  const INT3 := 0xCC

  /** What can happen to a trapped thread that the handler is not built for. */
  datatype Hazard =
    | ForeignByte        // the code there holds a 0xCC that no live hook wrote
    | Forgotten          // the target was dropped by `forget`
    | SlotReused         // its slot went to another target between the two loads
    | RingOverrun        // RETIRED_LEN removals followed the one it needs
    | UnhookedInWindow   // the slot was cleared between the byte read and the re-scan

  datatype Verdict = ToDetour(detour: Addr) | Rerun(byte: int) | PassedOn

  /** The next operation of a thread that is dispatching a trap. */
  datatype Pc =
    | Entry
    | LoadTarget(i: nat, rescan: bool)
    | LoadDetour(i: nat, rescan: bool)
    | LoadRetired(j: nat)
    | ReadByte
    | Answered(verdict: Verdict)

  datatype Thread =
    | Running
    | Trapped(addr: Addr, home: nat, removal: Option<nat>, hazards: set<Hazard>, pc: Pc)

  datatype Hook = Hook(slot: nat, saved: int, detour: Addr)

  /** Where the lock holder `me` is; the constructors name the operation it executes next. */
  datatype Writer =
    | Idle
    | ArmScan(me: Tid, target: Addr, detour: Addr, i: nat, free: Option<nat>)
    | ArmRegister(me: Tid, target: Addr, detour: Addr, slot: nat)
    | ArmDetour(me: Tid, target: Addr, detour: Addr, slot: nat)
    | ArmTarget(me: Tid, target: Addr, detour: Addr, slot: nat)
    | ArmWrite(me: Tid, target: Addr, detour: Addr, slot: nat)
    | UndoTarget(me: Tid, target: Addr, detour: Addr, slot: nat)
    | UndoDetour(me: Tid, target: Addr, detour: Addr, slot: nat)
    | Retire(me: Tid, target: Addr)
    | Restore(me: Tid, target: Addr, removal: nat)
    | ClearTarget(me: Tid, target: Addr, detour: Addr, slot: nat)
    | ClearDetour(me: Tid, target: Addr, detour: Addr, slot: nat)
    | IdleScan(me: Tid, i: nat)
    | Snapshot(me: Tid, attempt: nat)
    | Suspend(me: Tid, attempt: nat, todo: set<Tid>, held: set<Tid>, inFlight: bool)
    | Inspect(me: Tid, attempt: nat, todo: set<Tid>, held: set<Tid>)
    | Thaw(me: Tid, attempt: nat, held: set<Tid>, inFlight: bool)
    | Unregister(me: Tid)
    | Wipe(me: Tid, j: nat)

  /**
   `code` is the code as it would read without our hooks; `log` numbers the
   removals since the ring was last wiped. Both are history, the rest is the
   program's state.
   */
  datatype State = State(
    mem: map<Addr, int>,
    code: map<Addr, int>,
    slotTarget: seq<Addr>,
    slotDetour: seq<Addr>,
    ring: seq<Addr>,
    retiredNext: nat,
    log: seq<Addr>,
    handler: bool,
    hooks: map<Addr, Hook>,
    writer: Writer,
    threads: map<Tid, Thread>)

  datatype Event =
    | StartArm(me: Tid, target: Addr, detour: Addr)
    | StartRemove(me: Tid, target: Addr)
    | StartRelease(me: Tid)
    | WriterStep(pick: Tid, ok: bool)
    | Forget(target: Addr, byte: int)
    | Trap(t: Tid, addr: Addr)
    | Handle(t: Tid)
    | Spawn(t: Tid, child: Tid)
    | Exit(t: Tid)

  /** `f` is the first free slot, the one `arm` takes. */
  predicate FirstFree(targets: seq<Addr>, f: nat) {
    f < |targets| && targets[f] == 0 && forall i :: 0 <= i < f ==> targets[i] != 0
  }

  function EmptyRing(): seq<Addr> { seq(RETIRED_LEN, _ => 0) }

  // ---------------------------------------------------------------- threads

  predicate Held(s: State, t: Tid) {
    (s.writer.Suspend? || s.writer.Inspect? || s.writer.Thaw?) && t in s.writer.held
  }

  /** A thread that can take a step of its own. */
  predicate Live(s: State, t: Tid) {
    t in s.threads && !Held(s, t) && (s.writer.Idle? || s.writer.me != t)
  }

  /** One atomic operation of the handler (int3_handler and find_detour). */
  function HandlerStep(s: State, th: Thread): Thread
    requires th.Trapped?
    requires th.pc.LoadTarget? ==> th.pc.i <= MAX_HOOKS
    requires th.pc.LoadDetour? ==> th.pc.i < MAX_HOOKS
    requires th.pc.LoadRetired? ==> th.pc.j <= RETIRED_LEN
    requires |s.slotTarget| == |s.slotDetour| == MAX_HOOKS && |s.ring| == RETIRED_LEN
  {
    match th.pc
    case Entry =>
      th.(pc := if s.handler then LoadTarget(0, false) else Answered(PassedOn))
    case LoadTarget(i, rescan) =>
      if i == MAX_HOOKS then
        th.(pc := if rescan then Answered(PassedOn) else LoadRetired(0))
      else if s.slotTarget[i] == th.addr then th.(pc := LoadDetour(i, rescan))
      else th.(pc := LoadTarget(i + 1, rescan))
    case LoadDetour(i, rescan) =>
      if s.slotDetour[i] != 0 then th.(pc := Answered(ToDetour(s.slotDetour[i])))
      else th.(pc := LoadTarget(i + 1, rescan))
    case LoadRetired(j) =>
      if j == RETIRED_LEN then th.(pc := Answered(PassedOn))
      else if s.ring[j] == th.addr then th.(pc := ReadByte)
      else th.(pc := LoadRetired(j + 1))
    case ReadByte =>
      if th.addr !in s.mem then th.(pc := Answered(PassedOn))
      else if s.mem[th.addr] != INT3 then th.(pc := Answered(Rerun(s.mem[th.addr])))
      else th.(pc := LoadTarget(0, true),
               home := if th.addr in s.hooks then s.hooks[th.addr].slot else th.home)
    case Answered(_) => Running
  }

  /** The state of a thread that has just executed the 0xCC at `addr`. */
  function FreshTrap(s: State, addr: Addr): Thread
    requires addr in s.code
  {
    if s.code[addr] == INT3 || addr !in s.hooks then
      Trapped(addr, 0, None, {ForeignByte}, Entry)
    else
      Trapped(addr, s.hooks[addr].slot,
              if s.writer.Restore? && s.writer.target == addr then Some(s.writer.removal) else None,
              {}, Entry)
  }

  function Hit(th: Thread, h: Hazard): Thread
    requires th.Trapped?
  {
    th.(hazards := th.hazards + {h})
  }

  function OnRetire(th: Thread, a: Addr, k: nat): Thread {
    if !th.Trapped? then th
    else
      var th1 := if th.addr == a && th.removal.None? then th.(removal := Some(k)) else th;
      if th1.removal.Some? && th1.removal.value + RETIRED_LEN <= k then Hit(th1, RingOverrun) else th1
  }

  function OnClear(th: Thread, a: Addr): Thread {
    if th.Trapped? && th.addr == a && (th.pc.LoadTarget? || th.pc.LoadDetour?) && th.pc.rescan
    then Hit(th, UnhookedInWindow) else th
  }

  function OnReuse(th: Thread, a: Addr, slot: nat): Thread {
    if th.Trapped? && th.addr != a && th.pc.LoadDetour? && th.pc.i == slot
    then Hit(th, SlotReused) else th
  }

  function OnForget(th: Thread, a: Addr): Thread {
    if th.Trapped? && th.addr == a then Hit(th, Forgotten) else th
  }

  function OnForeign(th: Thread, a: Addr): Thread {
    if th.Trapped? && th.addr == a then Hit(th, ForeignByte) else th
  }

  // ----------------------------------------------------------------- writer

  /** `arm`: reject a target that is already hooked and remember the first free slot. */
  function ScanForFree(s: State): State
    requires Shape(s) && s.writer.ArmScan?
  {
    var ArmScan(me, a, d, i, free) := s.writer;
    if i < MAX_HOOKS && s.slotTarget[i] == a then s.(writer := Idle)
    else if i < MAX_HOOKS then
      s.(writer := ArmScan(me, a, d, i + 1, if s.slotTarget[i] == 0 && free.None? then Some(i) else free))
    else if free.Some? then s.(writer := ArmRegister(me, a, d, free.value))
    else s.(writer := Idle)
  }

  function RegisterHandler(s: State, ok: bool): State
    requires s.writer.ArmRegister?
  {
    var ArmRegister(me, a, d, slot) := s.writer;
    if s.handler || ok then s.(handler := true, writer := ArmDetour(me, a, d, slot))
    else s.(writer := Idle)
  }

  function PublishDetour(s: State): State
    requires Shape(s) && s.writer.ArmDetour?
  {
    var ArmDetour(me, a, d, slot) := s.writer;
    s.(slotDetour := s.slotDetour[slot := d],
       threads := map t | t in s.threads :: OnReuse(s.threads[t], a, slot),
       writer := ArmTarget(me, a, d, slot))
  }

  function PublishTarget(s: State): State
    requires Shape(s) && s.writer.ArmTarget?
  {
    var ArmTarget(me, a, d, slot) := s.writer;
    s.(slotTarget := s.slotTarget[slot := a], writer := ArmWrite(me, a, d, slot))
  }

  function PatchByte(s: State, ok: bool): State
    requires s.writer.ArmWrite?
  {
    var ArmWrite(me, a, d, slot) := s.writer;
    if ok && a in s.mem then
      s.(mem := s.mem[a := INT3], hooks := s.hooks[a := Hook(slot, s.mem[a], d)], writer := Idle)
    else s.(writer := UndoTarget(me, a, d, slot))
  }

  function RollBackTarget(s: State): State
    requires Shape(s) && s.writer.UndoTarget?
  {
    var UndoTarget(me, a, d, slot) := s.writer;
    s.(slotTarget := s.slotTarget[slot := 0], writer := UndoDetour(me, a, d, slot))
  }

  function RollBackDetour(s: State): State
    requires Shape(s) && s.writer.UndoDetour?
  {
    s.(slotDetour := s.slotDetour[s.writer.slot := 0], writer := IdleScan(s.writer.me, 0))
  }

  /** `remove`: the target enters the ring before anything else changes. */
  function LogRemoval(s: State): State
    requires Shape(s) && s.writer.Retire?
  {
    var Retire(me, a) := s.writer;
    s.(ring := s.ring[s.retiredNext := a],
       retiredNext := (s.retiredNext + 1) % RETIRED_LEN,
       log := s.log + [a],
       threads := map t | t in s.threads :: OnRetire(s.threads[t], a, |s.log|),
       writer := Restore(me, a, |s.log|))
  }

  /** The result of the byte write is ignored: if it fails, a 0xCC that no hook owns stays behind. */
  function RestoreByte(s: State, ok: bool): State
    requires Shape(s) && s.writer.Restore?
  {
    var Restore(me, a, _) := s.writer;
    var hook := s.hooks[a];
    var s1 := s.(hooks := s.hooks - {a}, writer := ClearTarget(me, a, hook.detour, hook.slot));
    if ok then s1.(mem := s.mem[a := hook.saved])
    else s1.(code := s.code[a := INT3],
             threads := map t | t in s.threads :: OnForeign(s.threads[t], a))
  }

  function UnpublishTarget(s: State): State
    requires Shape(s) && s.writer.ClearTarget?
  {
    var ClearTarget(me, a, d, slot) := s.writer;
    s.(slotTarget := s.slotTarget[slot := 0],
       threads := map t | t in s.threads :: OnClear(s.threads[t], a),
       writer := ClearDetour(me, a, d, slot))
  }

  function UnpublishDetour(s: State): State
    requires Shape(s) && s.writer.ClearDetour?
  {
    s.(slotDetour := s.slotDetour[s.writer.slot := 0], writer := IdleScan(s.writer.me, 0))
  }

  /** `release_idle_handler`: nothing to do unless a handler is registered and no slot is live. */
  function ScanForLive(s: State): Writer
    requires Shape(s) && s.writer.IdleScan?
  {
    var IdleScan(me, i) := s.writer;
    if !s.handler then Idle
    else if i == MAX_HOOKS then Snapshot(me, 0)
    else if s.slotTarget[i] != 0 then Idle
    else IdleScan(me, i + 1)
  }

  /** `exceptions_in_flight`: freeze the threads of one snapshot, one by one. */
  function SuspendNext(s: State, pick: Tid, ok: bool): Writer
    requires s.writer.Suspend?
  {
    var Suspend(me, attempt, todo, held, inFlight) := s.writer;
    if todo == {} then
      if inFlight then Thaw(me, attempt, held, true) else Inspect(me, attempt, held, held)
    else if pick !in s.threads then Suspend(me, attempt, todo - {pick}, held, inFlight)
    else if ok then Suspend(me, attempt, todo - {pick}, held + {pick}, inFlight)
    else Suspend(me, attempt, todo - {pick}, held, true)
  }

  function InspectNext(s: State, pick: Tid, ok: bool): Writer
    requires s.writer.Inspect?
  {
    var Inspect(me, attempt, todo, held) := s.writer;
    if todo == {} then Thaw(me, attempt, held, false)
    else if ok then Inspect(me, attempt, todo - {pick}, held)
    else Thaw(me, attempt, held, true)
  }

  function AfterThaw(s: State): Writer
    requires s.writer.Thaw?
  {
    var Thaw(me, attempt, _, inFlight) := s.writer;
    if !inFlight then Unregister(me)
    else if attempt + 1 < RELEASE_ATTEMPTS then Snapshot(me, attempt + 1)
    else Idle
  }

  function RemoveHandler(s: State): State
    requires s.writer.Unregister?
  {
    s.(handler := false, log := [], writer := Wipe(s.writer.me, 0))
  }

  function WipeRing(s: State): State
    requires Shape(s) && s.writer.Wipe?
  {
    var Wipe(me, j) := s.writer;
    if j == RETIRED_LEN then s.(retiredNext := 0, writer := Idle)
    else s.(ring := s.ring[j := 0], writer := Wipe(me, j + 1))
  }

  /** One atomic operation of the lock holder; `ok` and `pick` are the outside world's choices. */
  function WriterNext(s: State, pick: Tid, ok: bool): State
    requires Shape(s) && WriterEnabled(s, pick, ok)
  {
    match s.writer
    case ArmScan(_, _, _, _, _) => ScanForFree(s)
    case ArmRegister(_, _, _, _) => RegisterHandler(s, ok)
    case ArmDetour(_, _, _, _) => PublishDetour(s)
    case ArmTarget(_, _, _, _) => PublishTarget(s)
    case ArmWrite(_, _, _, _) => PatchByte(s, ok)
    case UndoTarget(_, _, _, _) => RollBackTarget(s)
    case UndoDetour(_, _, _, _) => RollBackDetour(s)
    case Retire(_, _) => LogRemoval(s)
    case Restore(_, _, _) => RestoreByte(s, ok)
    case ClearTarget(_, _, _, _) => UnpublishTarget(s)
    case ClearDetour(_, _, _, _) => UnpublishDetour(s)
    case IdleScan(_, _) => s.(writer := ScanForLive(s))
    case Snapshot(me, attempt) => s.(writer := Suspend(me, attempt, s.threads.Keys - {me}, {}, false))
    case Suspend(_, _, _, _, _) => s.(writer := SuspendNext(s, pick, ok))
    case Inspect(_, _, _, _) => s.(writer := InspectNext(s, pick, ok))
    case Thaw(_, _, _, _) => s.(writer := AfterThaw(s))
    case Unregister(_) => RemoveHandler(s)
    case Wipe(_, _) => WipeRing(s)
  }

  /** `inflight::dispatching` on a suspended thread: it must report a trap at a retired address. */
  predicate MayLookIdle(s: State, t: Tid) {
    t in s.threads && (s.threads[t].Trapped? ==> s.threads[t].addr == 0 || s.threads[t].addr !in s.ring)
  }

  predicate WriterEnabled(s: State, pick: Tid, ok: bool) {
    match s.writer
    case Idle => false
    case Suspend(_, _, todo, _, _) => todo == {} || pick in todo
    case Inspect(_, _, todo, _) => todo == {} || (pick in todo && (ok ==> MayLookIdle(s, pick)))
    case _ => true
  }

  // ------------------------------------------------------------- transitions

  /** Index bounds that make every step well defined. */
  predicate Shape(s: State) {
    && |s.slotTarget| == |s.slotDetour| == MAX_HOOKS
    && |s.ring| == RETIRED_LEN
    && s.retiredNext < RETIRED_LEN
    && s.mem.Keys == s.code.Keys
    && (forall t :: t in s.threads ==> ThreadShape(s.threads[t]))
    && WriterShape(s)
  }

  predicate ThreadShape(th: Thread) {
    th.Trapped? ==>
      && th.addr != 0
      && (th.pc.LoadTarget? ==> th.pc.i <= MAX_HOOKS)
      && (th.pc.LoadDetour? ==> th.pc.i < MAX_HOOKS)
      && (th.pc.LoadRetired? ==> th.pc.j <= RETIRED_LEN)
  }

  predicate WriterShape(s: State) {
    match s.writer
    case ArmScan(_, a, d, i, free) => a != 0 && d != 0 && i <= MAX_HOOKS && (free.Some? ==> free.value < i)
    case ArmRegister(_, a, d, slot) => a != 0 && d != 0 && slot < MAX_HOOKS
    case ArmDetour(_, a, d, slot) => a != 0 && d != 0 && slot < MAX_HOOKS
    case ArmTarget(_, a, d, slot) => a != 0 && d != 0 && slot < MAX_HOOKS
    case ArmWrite(_, a, d, slot) => a != 0 && d != 0 && slot < MAX_HOOKS
    case UndoTarget(_, a, _, slot) => a != 0 && slot < MAX_HOOKS
    case UndoDetour(_, a, _, slot) => a != 0 && slot < MAX_HOOKS
    case Retire(_, a) => a in s.hooks
    case Restore(_, a, _) => a in s.hooks && a in s.mem
    case ClearTarget(_, a, _, slot) => a != 0 && slot < MAX_HOOKS
    case ClearDetour(_, a, _, slot) => a != 0 && slot < MAX_HOOKS
    case IdleScan(_, i) => i <= MAX_HOOKS
    case Wipe(_, j) => j <= RETIRED_LEN
    case _ => true
  }

  /** The hook a running `remove` has already taken from its owner. */
  predicate BeingRemoved(s: State, a: Addr) {
    (s.writer.Retire? || s.writer.Restore?) && s.writer.target == a
  }

  predicate Enabled(s: State, e: Event) {
    match e
    case StartArm(me, a, d) => s.writer.Idle? && me in s.threads && s.threads[me].Running? && a != 0 && d != 0
    case StartRemove(me, a) => s.writer.Idle? && me in s.threads && s.threads[me].Running? && a in s.hooks
    case StartRelease(me) => s.writer.Idle? && me in s.threads && s.threads[me].Running?
    case WriterStep(pick, ok) => WriterEnabled(s, pick, ok)
    case Forget(a, _) => a in s.hooks && !BeingRemoved(s, a) && s.hooks[a].slot < MAX_HOOKS && a in s.code
    case Trap(t, a) => Live(s, t) && s.threads[t].Running? && a != 0 && a in s.mem && s.mem[a] == INT3
    case Handle(t) => Live(s, t) && s.threads[t].Trapped?
    case Spawn(t, child) => Live(s, t) && s.threads[t].Running? && child !in s.threads
    case Exit(t) => Live(s, t)
  }

  /** `forget`, after the image holding `a` was unmapped and `a` came to read `b`. */
  function DropHook(s: State, a: Addr, b: int): State
    requires |s.slotTarget| == MAX_HOOKS && a in s.hooks && s.hooks[a].slot < MAX_HOOKS
  {
    s.(slotTarget := s.slotTarget[s.hooks[a].slot := 0],
       mem := s.mem[a := b], code := s.code[a := b], hooks := s.hooks - {a},
       threads := map t | t in s.threads :: OnForget(s.threads[t], a))
  }

  function Apply(s: State, e: Event): State
    requires Shape(s) && Enabled(s, e)
  {
    match e
    case StartArm(me, a, d) => s.(writer := ArmScan(me, a, d, 0, None))
    case StartRemove(me, a) => s.(writer := Retire(me, a))
    case StartRelease(me) => s.(writer := IdleScan(me, 0))
    case WriterStep(pick, ok) => WriterNext(s, pick, ok)
    case Forget(a, b) => DropHook(s, a, b)
    case Trap(t, a) => s.(threads := s.threads[t := FreshTrap(s, a)])
    case Handle(t) => s.(threads := s.threads[t := HandlerStep(s, s.threads[t])])
    case Spawn(_, child) => s.(threads := s.threads[child := Running])
    case Exit(t) => s.(threads := s.threads - {t})
  }

  predicate Init(s: State) {
    && s.mem == s.code
    && s.slotTarget == seq(MAX_HOOKS, _ => 0)
    && s.slotDetour == seq(MAX_HOOKS, _ => 0)
    && s.ring == seq(RETIRED_LEN, _ => 0)
    && s.retiredNext == 0 && s.log == [] && !s.handler
    && s.hooks == map[] && s.writer.Idle?
    && (forall t :: t in s.threads ==> s.threads[t].Running?)
  }
}
