/** `qmemcpy` of source/idadefs.h: a byte copy that always runs from the start to the end. */
module Memory {
  import opened Words

  type Byte = bv8

  /** Where byte `i` of the destination comes from; a source the copy runs into repeats with the distance. */
  function Origin(dst: nat, src: nat, i: nat): nat {
    if dst <= src then src + i else src + i % (dst - src)
  }

  /** Copies `cnt` bytes inside one memory, whatever the placement of the two ranges. */
  method Qmemcpy(mem: array<Byte>, dst: nat, src: nat, cnt: nat) returns (result: nat)
    requires dst + cnt <= mem.Length && src + cnt <= mem.Length
    modifies mem
    ensures result == dst
    ensures forall i :: 0 <= i < cnt ==>
      Origin(dst, src, i) < mem.Length && mem[dst + i] == old(mem[Origin(dst, src, i)])
    ensures forall p :: 0 <= p < mem.Length && !(dst <= p < dst + cnt) ==> mem[p] == old(mem[p])
  {
    var out, in_, left := dst, src, cnt;
    OriginBelow(dst, src, cnt);
    while left > 0
      invariant 0 <= left <= cnt && out == dst + (cnt - left) && in_ == src + (cnt - left)
      invariant forall i :: 0 <= i < cnt - left ==> mem[dst + i] == old(mem[Origin(dst, src, i)])
      invariant forall p :: 0 <= p < mem.Length && !(dst <= p < out) ==> mem[p] == old(mem[p])
    {
      OriginStep(dst, src, cnt - left);
      mem[out] := mem[in_];
      out, in_ := out + 1, in_ + 1;
      left := left - 1;
    }
    return dst;
  }

  lemma OriginBelow(dst: nat, src: nat, cnt: nat)
    ensures forall i :: 0 <= i < cnt ==> src <= Origin(dst, src, i) < src + cnt
  {
  }

  /** Before the distance is reached the origin is the plain one; after it, that of the byte one distance earlier. */
  lemma OriginStep(dst: nat, src: nat, i: nat)
    ensures src <= Origin(dst, src, i) <= src + i
    ensures dst <= src || i < dst - src ==> Origin(dst, src, i) == src + i
    ensures src < dst && dst - src <= i ==> Origin(dst, src, i) == Origin(dst, src, i - (dst - src))
  {
    if src < dst {
      var d := dst - src;
      var q, r := i / d, i % d;
      assert i == d * q + r;
      if i < d {
        DivModUnique(i, d, 0, i);
      } else {
        assert d * (q - 1) == d * q - d && (q - 1) * d == d * (q - 1);
        DivModUnique(i - d, d, q - 1, r);
      }
    }
  }

  /** When the ranges are disjoint, or the destination is not above the source, the copy is the plain one. */
  lemma PlainCopy(dst: nat, src: nat, cnt: nat)
    requires dst <= src || src + cnt <= dst
    ensures forall i :: 0 <= i < cnt ==> Origin(dst, src, i) == src + i
  {
  }
}
