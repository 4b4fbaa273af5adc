/**
 `relocate`: the loops over the decoder and the block, proved against specifications
 that do not mention them.
 */
module Disassembler {
  import opened Options
  import opened Relocator
  import opened RelocatorSim

  // ------------------------------------------------------------- relocation

  /** What the block encoder returns: the bytes and each block instruction's offset in them. */
  datatype Encoding = Encoding(code: seq<int>, offsets: seq<nat>)

  datatype Mapping = Mapping(
    writtenLen: nat,
    oldOffsets: seq<nat>,
    newOffsets: seq<nat>,
    jmpBackOffset: nat)

  /** The decoder over `len` bytes at `start`: an instruction that does not fit is invalid. */
  ghost predicate DecoderContract(decode: nat -> Instr, start: nat, len: nat) {
    forall off: nat :: off < len ==>
      && decode(off).ip == start + off && 1 <= decode(off).len <= 15
      && (!decode(off).kind.Invalid? ==> off + decode(off).len <= len)
  }

  /** All instructions from `off` to `len`, or None if one is invalid. */
  function DecodeFrom(decode: nat -> Instr, off: nat, len: nat): (r: Option<seq<Instr>>)
    requires off <= len
    decreases len - off
  {
    if off == len then Some([])
    else
      var instr := decode(off);
      if instr.kind.Invalid? || instr.len == 0 || off + instr.len > len then None
      else
        var rest := DecodeFrom(decode, off + instr.len, len);
        if rest.None? then None else Some([instr] + rest.value)
  }

  lemma {:induction false} DecodedIsContiguous(decode: nat -> Instr, start: nat, off: nat, len: nat)
    requires off <= len && DecoderContract(decode, start, len) && DecodeFrom(decode, off, len).Some?
    ensures Contiguous(DecodeFrom(decode, off, len).value, start + off, start + len)
    decreases len - off
  {
    if off < len { DecodedIsContiguous(decode, start, off + decode(off).len, len); }
  }

  /** `decoded` is what the decoder gives at `offsets`, which lead from 0 to `to` without a gap. */
  ghost predicate DecodedAt(decode: nat -> Instr, decoded: seq<Instr>, offsets: seq<nat>, to: nat) {
    && |offsets| == |decoded|
    && (forall k :: 0 <= k < |decoded| ==> decoded[k] == decode(offsets[k]) && !decoded[k].kind.Invalid?)
    && (forall k :: 0 <= k < |decoded| ==> decoded[k].len > 0)
    && (decoded != [] ==> offsets[0] == 0)
    && (forall j, k :: 0 <= j < k < |decoded| && k == j + 1 ==> offsets[k] == offsets[j] + decoded[j].len)
    && to == if decoded == [] then 0 else offsets[|offsets| - 1] + decoded[|decoded| - 1].len
  }

  /** Decoding one instruction after the other comes to an offset before `len` at which there is none. */
  ghost predicate MeetsInvalid(decode: nat -> Instr, len: nat) {
    exists decoded, offsets, bad: nat :: BadAt(decode, len, decoded, offsets, bad)
  }

  ghost predicate BadAt(decode: nat -> Instr, len: nat, decoded: seq<Instr>, offsets: seq<nat>, bad: nat) {
    DecodedAt(decode, decoded, offsets, bad) && bad < len && decode(bad).kind.Invalid?
  }

  lemma {:induction false} OffsetsAgree(decode: nat -> Instr, ds: seq<Instr>, os: seq<nat>, to: nat,
                                        es: seq<Instr>, ps: seq<nat>, bad: nat, k: nat)
    requires DecodedAt(decode, ds, os, to) && DecodedAt(decode, es, ps, bad)
    requires k <= |ds| && k <= |es|
    ensures k < |ds| && k < |es| ==> os[k] == ps[k]
    ensures k < |ds| && k == |es| ==> os[k] == bad
    ensures k == |ds| && k < |es| ==> to == ps[k]
    ensures k == |ds| == |es| ==> to == bad
  {
    if k > 0 {
      OffsetsAgree(decode, ds, os, to, es, ps, bad, k - 1);
    }
  }

  lemma {:induction false} OffsetsGrow(decode: nat -> Instr, es: seq<Instr>, ps: seq<nat>, bad: nat, k: nat)
    requires DecodedAt(decode, es, ps, bad) && k < |es|
    ensures ps[k] <= bad
    decreases |es| - k
  {
    if k + 1 < |es| {
      OffsetsGrow(decode, es, ps, bad, k + 1);
    }
  }

  /** Bytes that decode to their end meet no invalid instruction. */
  lemma DecodedMeetsNoInvalid(decode: nat -> Instr, len: nat, ds: seq<Instr>, os: seq<nat>)
    requires DecodedAt(decode, ds, os, len)
    ensures !MeetsInvalid(decode, len)
  {
    forall es, ps, bad: nat ensures !BadAt(decode, len, es, ps, bad) {
      if BadAt(decode, len, es, ps, bad) {
        OffsetsAgree(decode, ds, os, len, es, ps, bad, if |ds| < |es| then |ds| else |es|);
        if |ds| < |es| {
          OffsetsGrow(decode, es, ps, bad, |ds|);
        }
      }
    }
  }

  function Prefixed(front: seq<Instr>, rest: Option<seq<Instr>>): Option<seq<Instr>> {
    if rest.None? then None else Some(front + rest.value)
  }

  lemma PrefixedNone(rest: Option<seq<Instr>>)
    ensures Prefixed([], rest) == rest
  {
    if rest.Some? {
      assert [] + rest.value == rest.value;
    }
  }

  lemma PrefixedSnoc(front: seq<Instr>, instr: Instr, rest: Option<seq<Instr>>)
    ensures Prefixed(front, Prefixed([instr], rest)) == Prefixed(front + [instr], rest)
  {
    if rest.Some? {
      assert front + ([instr] + rest.value) == front + [instr] + rest.value;
    }
  }

  lemma DecodedAtFront(decode: nat -> Instr, decoded: seq<Instr>, offsets: seq<nat>, to: nat)
    requires DecodedAt(decode, decoded, offsets, to) && decoded != []
    ensures DecodedAt(decode, decoded[..|decoded| - 1], offsets[..|decoded| - 1], offsets[|decoded| - 1])
  {
  }

  /** Decoding goes over the instructions of a chain and on from its end. */
  lemma {:induction false} DecodesChain(decode: nat -> Instr, start: nat, len: nat, decoded: seq<Instr>,
                                        offsets: seq<nat>, to: nat)
    requires DecoderContract(decode, start, len) && DecodedAt(decode, decoded, offsets, to) && to <= len
    ensures DecodeFrom(decode, 0, len) == Prefixed(decoded, DecodeFrom(decode, to, len))
    decreases |decoded|
  {
    if decoded == [] {
      PrefixedNone(DecodeFrom(decode, 0, len));
    } else {
      var front, last := decoded[..|decoded| - 1], decoded[|decoded| - 1];
      DecodedAtFront(decode, decoded, offsets, to);
      DecodesChain(decode, start, len, front, offsets[..|decoded| - 1], offsets[|decoded| - 1]);
      PrefixedSnoc(front, last, DecodeFrom(decode, to, len));
      assert decoded == front + [last];
    }
  }

  /** `m` takes each stolen instruction to its copy and the end of the block to the jump back. */
  ghost predicate Maps(m: Mapping, decode: nat -> Instr, decoded: seq<Instr>, start: nat, end: nat, e: Encoding)
    requires start <= end
  {
    && m.writtenLen == |e.code|
    && |m.oldOffsets| == |m.newOffsets| == |decoded|
    && |Block(decoded, start, end)| <= |e.offsets|
    && DecodedAt(decode, decoded, m.oldOffsets, end - start)
    && (forall k :: 0 <= k < |decoded| ==> m.newOffsets[k] == e.offsets[BlockIndex(decoded, start, end, k)])
    && m.jmpBackOffset == e.offsets[BlockIndex(decoded, start, end, |decoded|)]
  }

  predicate Placed(decoded: seq<Instr>, start: nat, end: nat, e: Encoding) {
    && |Block(decoded, start, end)| <= |e.offsets|
    && forall k :: 0 <= k < |decoded| ==> e.offsets[BlockIndex(decoded, start, end, k)] != U32_MAX
  }

  lemma DecodedAtSnoc(decode: nat -> Instr, decoded: seq<Instr>, offsets: seq<nat>, off: nat)
    requires DecodedAt(decode, decoded, offsets, off) && !decode(off).kind.Invalid? && decode(off).len > 0
    ensures DecodedAt(decode, decoded + [decode(off)], offsets + [off], off + decode(off).len)
  {
  }

  /** Decodes the stolen bytes one by one. */
  method DecodeBlock(decode: nat -> Instr, start: nat, len: nat)
    returns (r: Option<seq<Instr>>, offsets: seq<nat>)
    requires DecoderContract(decode, start, len) && len <= U32_MAX
    ensures r == DecodeFrom(decode, 0, len)
    ensures r.Some? ==> DecodedAt(decode, r.value, offsets, len)
    ensures r.None? <==> MeetsInvalid(decode, len)
  {
    var decoded: seq<Instr> := [];
    offsets := [];
    var off := 0;
    while off < len
      invariant off <= len
      invariant DecodedAt(decode, decoded, offsets, off)
    {
      var instr := decode(off);
      if instr.kind.Invalid? {
        assert BadAt(decode, len, decoded, offsets, off);
        DecodesChain(decode, start, len, decoded, offsets, off);
        return None, offsets;
      }
      DecodedAtSnoc(decode, decoded, offsets, off);
      offsets := offsets + [instr.ip - start];
      decoded := decoded + [instr];
      off := off + instr.len;
    }
    assert decoded + [] == decoded;
    DecodesChain(decode, start, len, decoded, offsets, len);
    DecodedMeetsNoInvalid(decode, len, decoded, offsets);
    return Some(decoded), offsets;
  }

  /** Builds the block for the encoder; `index[k]` is where the copy of instruction `k` begins. */
  method BuildBlock(decoded: seq<Instr>, start: nat, end: nat) returns (r: Option<seq<Instr>>, index: seq<nat>)
    ensures r.Some? <==> Relocatable(decoded, start, end)
    ensures r.Some? ==> r.value == Block(decoded, start, end)
    ensures r.Some? ==>
              |index| == |decoded| && forall k :: 0 <= k < |decoded| ==> index[k] == BlockIndex(decoded, start, end, k)
  {
    var block: seq<Instr> := [];
    index := [];
    for n := 0 to |decoded|
      invariant block == Expand(decoded, start, end, n)
      invariant |index| == n && forall k :: 0 <= k < n ==> index[k] == BlockIndex(decoded, start, end, k)
      invariant forall k :: 0 <= k < n ==> !EmulateCall(decoded[k], decoded, start, end).Rejected?
    {
      index := index + [|block|];
      var e := EmulateCall(decoded[n], decoded, start, end);
      if e.Rejected? {
        return None, index;
      } else if e.Sequence? {
        block := block + e.code;
      } else {
        block := block + [decoded[n]];
      }
    }
    return Some(block + [Instr(0, 0, Jump(end))]), index;
  }

  /** Picks the tracked offsets; `ok` is false if the encoder could not place one of them. */
  method PickOffsets(offsets: seq<nat>, index: seq<nat>) returns (picked: seq<nat>, ok: bool)
    requires forall k :: 0 <= k < |index| ==> index[k] < |offsets|
    ensures |picked| == |index| && forall k :: 0 <= k < |index| ==> picked[k] == offsets[index[k]]
    ensures ok <==> forall k :: 0 <= k < |index| ==> offsets[index[k]] != U32_MAX
  {
    picked, ok := [], true;
    for n := 0 to |index|
      invariant |picked| == n && forall k :: 0 <= k < n ==> picked[k] == offsets[index[k]]
      invariant ok <==> forall k :: 0 <= k < n ==> offsets[index[k]] != U32_MAX
    {
      picked := picked + [offsets[index[n]]];
      ok := ok && offsets[index[n]] != U32_MAX;
    }
  }

  /** Everything before the write: the decoded block, its encoding and the mapping. */
  method Plan(decode: nat -> Instr, start: nat, len: nat, encode: seq<Instr> -> Option<Encoding>)
    returns (r: Result<(Mapping, Encoding)>)
    requires DecoderContract(decode, start, len) && len <= U32_MAX
    ensures match DecodeFrom(decode, 0, len)
            case None => r.Err? && MeetsInvalid(decode, len)
            case Some(decoded) =>
              var e := encode(Block(decoded, start, start + len));
              && (r.Ok? <==>
                    Relocatable(decoded, start, start + len) && e.Some? && Placed(decoded, start, start + len, e.value))
              && (r.Ok? ==> r.value.1 == e.value && Maps(r.value.0, decode, decoded, start, start + len, e.value))
  {
    var decoded, oldOffsets := DecodeBlock(decode, start, len);
    if decoded.None? {
      return Err;
    }
    var block, index := BuildBlock(decoded.value, start, start + len);
    if block.None? {
      return Err;
    }
    var e := encode(block.value);
    if e.None? || |e.value.offsets| < |block.value| {
      return Err;
    }
    var newOffsets, ok := PickOffsets(e.value.offsets, index);
    if !ok {
      return Err;
    }
    return Ok((Mapping(|e.value.code|, oldOffsets, newOffsets, e.value.offsets[|block.value| - 1]), e.value));
  }

  /**
   Relocates `len` bytes at `start` to the trampoline buffer. Succeeds exactly
   when every instruction decodes, no call lands inside an instruction and the
   encoder places every copy; the trampoline is written only then, and the block
   it then holds is one that `RelocationPreservesMeaning` is about.
   */
  method Relocate(decode: nat -> Instr, start: nat, len: nat, encode: seq<Instr> -> Option<Encoding>,
                  trampoline: array<int>)
    returns (r: Result<Mapping>)
    requires DecoderContract(decode, start, len) && 0 < start && start + len < TWO64 && len <= U32_MAX
    requires forall b :: encode(b).Some? ==> |encode(b).value.code| <= trampoline.Length
    modifies trampoline
    ensures match DecodeFrom(decode, 0, len)
            case None => r.Err? && MeetsInvalid(decode, len)
            case Some(decoded) =>
              var end := start + len;
              var e := encode(Block(decoded, start, end));
              && Contiguous(decoded, start, end)
              && (r.Ok? <==> Relocatable(decoded, start, end) && e.Some? && Placed(decoded, start, end, e.value))
              && (r.Ok? ==>
                    && Stolen(decoded, start, end)
                    && Maps(r.value, decode, decoded, start, end, e.value)
                    && trampoline[..r.value.writtenLen] == e.value.code
                    && trampoline[r.value.writtenLen..] == old(trampoline[..])[r.value.writtenLen..])
    ensures r.Err? ==> trampoline[..] == old(trampoline[..])
  {
    var plan := Plan(decode, start, len, encode);
    if DecodeFrom(decode, 0, len).Some? {
      DecodedIsContiguous(decode, start, 0, len);
    }
    if plan.Err? {
      return Err;
    }
    var code := plan.value.1.code;
    forall i | 0 <= i < |code| {
      trampoline[i] := code[i];
    }
    return Ok(plan.value.0);
  }
}
