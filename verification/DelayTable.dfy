/**
 The delay manager as the program holds it: the list of requests, the next id and the
 `LdrLoadDll` hook, changed in place under the mutex. The races around it are the
 subject of `DelayManager` and `DelayRegistration`.
 */
module DelayTable {
  import opened Options
  import DM = DelayManager

  type Addr = DM.Addr

  datatype Installed = Installed(target: Addr, base: Addr)

  datatype Request = Request(id: nat, hook: Option<Installed>)

  datatype Error = LdrHookFailed | InstallFailed

  datatype Result<+T> = Ok(value: T) | Err(error: Error)

  /** What the loader and memory answer: the base of the module around an address, and the byte there. */
  datatype Process = Process(baseOf: Addr -> Option<Addr>, byteAt: Addr -> Option<int>)

  /** `still_installed`. */
  predicate StillInstalled(p: Process, h: Installed, checkByte: bool) {
    && h.base != 0 && p.baseOf(h.target) == Some(h.base)
    && (checkByte ==> p.byteAt(h.target) == Some(DM.INT3))
  }

  /** A request whose hook is taken away if `gone` says so. */
  function Pruned(r: Request, gone: Installed -> bool): Request {
    if r.hook.Some? && gone(r.hook.value) then r.(hook := None) else r
  }

  function PruneAll(rs: seq<Request>, gone: Installed -> bool): (out: seq<Request>)
    ensures |out| == |rs|
  {
    seq(|rs|, k requires 0 <= k < |rs| => Pruned(rs[k], gone))
  }

  function StaleIn(p: Process, checkByte: bool): Installed -> bool {
    (h: Installed) => !StillInstalled(p, h, checkByte)
  }

  function InRange(base: Addr, end: Addr): Installed -> bool { (h: Installed) => base <= h.target < end }

  /** Ids were given out in order, each once. */
  ghost predicate IdsOk(rs: seq<Request>, nextId: nat) {
    && (forall k :: 0 <= k < |rs| ==> rs[k].id < nextId)
    && (forall j, k :: 0 <= j < k < |rs| ==> rs[j].id < rs[k].id)
  }

  /** The requests without the one with this id. */
  function Without(rs: seq<Request>, id: nat): seq<Request> {
    if rs == [] then [] else if rs[0].id == id then rs[1..] else [rs[0]] + Without(rs[1..], id)
  }

  lemma {:induction false} WithoutAt(rs: seq<Request>, id: nat, pos: nat)
    requires pos <= |rs| && (forall k :: 0 <= k < pos ==> rs[k].id != id) && (pos < |rs| ==> rs[pos].id == id)
    ensures Without(rs, id) == if pos < |rs| then rs[..pos] + rs[pos + 1..] else rs
    decreases pos
  {
    if pos > 0 {
      WithoutAt(rs[1..], id, pos - 1);
      if pos < |rs| {
        assert rs[..pos] + rs[pos + 1..] == [rs[0]] + (rs[1..][..pos - 1] + rs[1..][pos..]);
      }
    }
  }

  /** Removing a request that has just been registered leaves the others as they were. */
  lemma {:induction false} RemoveUndoesRegister(rs: seq<Request>, nextId: nat, r: Request)
    requires IdsOk(rs, nextId) && r.id == nextId
    ensures Without(rs + [r], nextId) == rs
  {
    WithoutAt(rs + [r], nextId, |rs|);
    assert (rs + [r])[..|rs|] + (rs + [r])[|rs| + 1..] == rs;
  }

  lemma WithoutKeepsIds(rs: seq<Request>, nextId: nat, id: nat, pos: nat)
    requires IdsOk(rs, nextId) && pos < |rs|
    ensures IdsOk(rs[..pos] + rs[pos + 1..], nextId)
  {
  }

  class Manager {
    var pending: seq<Request>
    var nextId: nat
    /** The inline hook on `LdrLoadDll` is in place. */
    var ldrHook: bool
    var missed: bool

    /** The `LdrLoadDll` hook is there exactly while it is needed. */
    ghost predicate Valid()
      reads this
    {
      IdsOk(pending, nextId) && (ldrHook <==> pending != [])
    }

    constructor ()
      ensures Valid() && pending == [] && nextId == 1 && !missed
    {
      pending, nextId, ldrHook, missed := [], 1, false, false;
    }

    method Prune(gone: Installed -> bool)
      requires Valid()
      modifies this`pending
      ensures Valid() && pending == PruneAll(old(pending), gone)
    {
      ghost var before := pending;
      for i := 0 to |pending|
        invariant |pending| == |before|
        invariant forall k :: 0 <= k < i ==> pending[k] == Pruned(before[k], gone)
        invariant forall k :: i <= k < |before| ==> pending[k] == before[k]
      {
        pending := pending[i := Pruned(pending[i], gone)];
      }
      assert pending == PruneAll(before, gone);
    }

    /** `lock_manager`: every hook whose image is gone is dropped, no other, and the missed flag is taken. */
    method Lock(p: Process, notified: bool)
      requires Valid()
      modifies this`pending, this`missed
      ensures Valid() && !missed
      ensures pending == PruneAll(old(pending), StaleIn(p, old(missed) || !notified))
    {
      var check := missed || !notified;
      missed := false;
      Prune(StaleIn(p, check));
    }

    /** `on_dll_notification` for an unload: drops the hooks in the image, or leaves word when the lock is busy. */
    method OnUnload(base: Addr, end: Addr, busy: bool)
      requires Valid()
      modifies this`pending, this`missed
      ensures Valid()
      ensures busy ==> missed && pending == old(pending)
      ensures !busy ==> missed == old(missed) && pending == PruneAll(old(pending), InRange(base, end))
    {
      if busy {
        missed := true;
      } else {
        Prune(InRange(base, end));
      }
    }

    /**
     `register_locked`, after `lock_manager`. `target`: the export, if its module is loaded;
     `base`: the module around it; `installs` and `hooksLoader`: the two hooks can be set.
     */
    method Register(target: Option<Addr>, base: Option<Addr>, installs: bool, hooksLoader: bool)
      returns (r: Result<nat>)
      requires Valid()
      modifies this`pending, this`nextId, this`ldrHook
      ensures Valid()
      ensures r.Ok? ==> r.value == old(nextId) && nextId == old(nextId) + 1
      ensures r.Ok? ==> pending == old(pending) + [Request(r.value,
                if target.Some? && base.Some? then Some(Installed(target.value, base.value)) else None)]
      ensures r.Err? ==> pending == old(pending) && ldrHook == old(ldrHook)
      ensures r.Err? ==> nextId == old(nextId) + if r.error == InstallFailed then 1 else 0
      ensures r == Err(LdrHookFailed) <==> !hooksLoader && old(pending) == []
      ensures r == Err(InstallFailed) <==>
                (hooksLoader || old(pending) != []) && target.Some? && (base.None? || !installs)
    {
      if !ldrHook {
        if !hooksLoader {
          return Err(LdrHookFailed);
        }
        ldrHook := true;
      }
      var id := nextId;
      nextId := nextId + 1;
      var request := Request(id, None);
      if target.Some? {
        if base.None? || !installs {
          if pending == [] {
            ldrHook := false;
          }
          return Err(InstallFailed);
        }
        request := request.(hook := Some(Installed(target.value, base.value)));
      }
      pending := pending + [request];
      r := Ok(id);
    }

    /** `remove_locked`, after `lock_manager`; `unhooked` is the hook to take out, `last` whether no request is left. */
    method Remove(id: nat) returns (unhooked: Option<Installed>, last: bool)
      requires Valid()
      modifies this`pending, this`ldrHook
      ensures Valid() && pending == Without(old(pending), id) && (last <==> pending == [])
      ensures forall r :: r in pending <==> r in old(pending) && r.id != id
      ensures unhooked.Some? ==> Request(id, unhooked) in old(pending)
      ensures unhooked.None? ==> forall r :: r in old(pending) && r.id == id ==> r.hook.None?
    {
      unhooked := None;
      var pos := 0;
      while pos < |pending| && pending[pos].id != id
        invariant pos <= |pending|
        invariant forall k :: 0 <= k < pos ==> pending[k].id != id
      {
        pos := pos + 1;
      }
      WithoutAt(pending, id, pos);
      if pos < |pending| {
        WithoutKeepsIds(pending, nextId, id, pos);
        unhooked := pending[pos].hook;
        pending := pending[..pos] + pending[pos + 1..];
      }
      if pending == [] {
        ldrHook := false;
      }
      last := pending == [];
    }
  }
}
