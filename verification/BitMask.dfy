/**
 * The bit mask of a compact sparse Merkle proof: marked most significant bit first in a byte
 * string by the tree, and read as the bits of a 256-bit integer by the contract.
 */
module BitMask {

  type Byte = b: nat | b < 256

  function Pow2(n: nat): (r: nat)
    ensures r > 0
  {
    if n == 0 then 1 else 2 * Pow2(n - 1)
  }

  /** Bit `i` of `x`, the least significant being bit 0. */
  function Bit(x: nat, i: nat): (r: nat)
    ensures r < 2
  {
    if i == 0 then x % 2 else Bit(x / 2, i - 1)
  }

  lemma {:induction false} BitOfParts(high: nat, low: nat, width: nat, i: nat)
    requires low < Pow2(width)
    ensures Bit(high * Pow2(width) + low, i) == if i < width then Bit(low, i) else Bit(high, i - width)
    decreases width
  {
    if width > 0 {
      var half := Pow2(width - 1);
      var x := high * half;
      assert high * Pow2(width) == 2 * x by {
        assert Pow2(width) == 2 * half;
      }
      if i > 0 {
        BitOfParts(high, low / 2, width - 1, i - 1);
        assert (2 * x + low) / 2 == x + low / 2;
      }
    }
  }

  lemma {:induction false} BitsDetermine(x: nat, y: nat, width: nat)
    requires x < Pow2(width) && y < Pow2(width)
    requires forall i: nat :: i < width ==> Bit(x, i) == Bit(y, i)
    ensures x == y
  {
    if width > 0 {
      assert Bit(x, 0) == Bit(y, 0);
      forall i: nat | i < width - 1 ensures Bit(x / 2, i) == Bit(y / 2, i) {
        assert Bit(x, i + 1) == Bit(y, i + 1);
      }
      BitsDetermine(x / 2, y / 2, width - 1);
    }
  }

  /** The lowest `width` bits of `x` in the opposite order. */
  function Reverse(x: nat, width: nat): (r: nat)
    ensures r < Pow2(width)
  {
    if width == 0 then 0 else x % 2 * Pow2(width - 1) + Reverse(x / 2, width - 1)
  }

  lemma {:induction false} ReverseBit(x: nat, width: nat, i: nat)
    requires i < width
    ensures Bit(Reverse(x, width), i) == Bit(x, width - 1 - i)
    decreases width
  {
    BitOfParts(x % 2, Reverse(x / 2, width - 1), width - 1, i);
    if i < width - 1 {
      ReverseBit(x / 2, width - 1, i);
    }
  }

  lemma ReverseTwice(x: nat, width: nat)
    requires x < Pow2(width)
    ensures Reverse(Reverse(x, width), width) == x
  {
    var y := Reverse(Reverse(x, width), width);
    forall i: nat | i < width ensures Bit(y, i) == Bit(x, i) {
      ReverseBit(Reverse(x, width), width, i);
      ReverseBit(x, width, width - 1 - i);
    }
    BitsDetermine(y, x, width);
  }

  function Reverse8(b: Byte): Byte {
    assert Pow2(8) == 256 by { assert Pow2(4) == 16; }
    Reverse(b, 8)
  }

  // ---------------------------------------------------------------------------------------------
  // The conversion

  function Formatted(mask: seq<Byte>): (r: seq<Byte>)
    ensures |r| == |mask|
  {
    seq<Byte>(|mask|, i requires 0 <= i < |mask| => Reverse8(mask[|mask| - 1 - i]))
  }

  /** `formatBitMask`. */
  method FormatBitMask(bitMask: array<Byte>) returns (reversed: array<Byte>)
    ensures fresh(reversed) && reversed[..] == Formatted(bitMask[..])
  {
    reversed := new Byte[bitMask.Length];
    for i := 0 to bitMask.Length
      invariant forall k :: 0 <= k < i ==> reversed[k] == Reverse8(bitMask[bitMask.Length - 1 - k])
    {
      reversed[i] := Reverse8(bitMask[bitMask.Length - 1 - i]);
    }
  }

  /** The integer that big-endian bytes stand for. */
  function BigEndian(bytes: seq<Byte>): nat {
    if bytes == [] then 0
    else BigEndian(bytes[..|bytes| - 1]) * 256 + bytes[|bytes| - 1]
  }

  lemma {:induction false} BigEndianBit(bytes: seq<Byte>, i: nat)
    requires i < 8 * |bytes|
    ensures Bit(BigEndian(bytes), i) == Bit(bytes[|bytes| - 1 - i / 8], i % 8)
  {
    var n := |bytes| - 1;
    assert Pow2(8) == 256 by { assert Pow2(4) == 16; }
    BitOfParts(BigEndian(bytes[..n]), bytes[n], 8, i);
    if i >= 8 {
      BigEndianBit(bytes[..n], i - 8);
    }
  }

  /** Bit `i` of a byte string, counted from its first byte and the most significant bit. */
  function MostSignificantFirst(mask: seq<Byte>, i: nat): nat
    requires i < 8 * |mask|
  {
    Bit(mask[i / 8], 7 - i % 8)
  }

  /** Testing bit `i` of the formatted mask as an integer tests bit `i` of the mask the tree made. */
  lemma FormattedBit(mask: seq<Byte>, i: nat)
    requires i < 8 * |mask|
    ensures Bit(BigEndian(Formatted(mask)), i) == MostSignificantFirst(mask, i)
  {
    BigEndianBit(Formatted(mask), i);
    assert Formatted(mask)[|mask| - 1 - i / 8] == Reverse8(mask[i / 8]);
    ReverseBit(mask[i / 8], 8, i % 8);
  }

  /** Formatting twice gives the mask back. */
  lemma FormattedTwice(mask: seq<Byte>)
    ensures Formatted(Formatted(mask)) == mask
  {
    var n := |mask|;
    forall i | 0 <= i < n ensures Formatted(Formatted(mask))[i] == mask[i] {
      assert Formatted(mask)[n - 1 - i] == Reverse8(mask[i]);
      assert Pow2(8) == 256 by { assert Pow2(4) == 16; }
      ReverseTwice(mask[i], 8);
    }
  }

  // ---------------------------------------------------------------------------------------------
  // The contract reads back the side nodes the mask left out

  /** The nil node, zero. */
  const DEFAULT_VALUE: nat := 0

  /** The tree's marks: a bit is set exactly where the side node is nil. */
  ghost predicate Marks(mask: seq<Byte>, nodes: seq<nat>) {
    |nodes| <= 8 * |mask| &&
    forall i: nat :: i < |nodes| ==> (MostSignificantFirst(mask, i) == 1 <==> nodes[i] == DEFAULT_VALUE)
  }

  /** The side nodes a compact proof carries. */
  function Compacted(nodes: seq<nat>): (r: seq<nat>)
    ensures |r| <= |nodes|
  {
    if nodes == [] then []
    else
      var n := |nodes| - 1;
      if nodes[n] == DEFAULT_VALUE then Compacted(nodes[..n]) else Compacted(nodes[..n]) + [nodes[n]]
  }

  datatype SideNodes = Reverted | SideNodes(nodes: seq<nat>)

  /** The side nodes the loop of `_computeProofRoot` goes through; it reverts when it runs out of them. */
  method ReadSideNodes(bitMask: nat, sideNodes: seq<nat>, numSideNodes: nat) returns (r: SideNodes)
    ensures r == Expanded(bitMask, sideNodes, numSideNodes)
  {
    var nodes := [];
    var sideNodeIndex := 0;
    for i := 0 to numSideNodes
      invariant sideNodeIndex <= |sideNodes|
      invariant Reading(bitMask, sideNodes, i) == (SideNodes(nodes), sideNodeIndex)
    {
      if Bit(bitMask, i) != 0 {
        nodes := nodes + [DEFAULT_VALUE];
      } else if sideNodeIndex < |sideNodes| {
        nodes := nodes + [sideNodes[sideNodeIndex]];
        sideNodeIndex := sideNodeIndex + 1;
      } else {
        RevertedStays(bitMask, sideNodes, i + 1, numSideNodes);
        return Reverted;
      }
    }
    r := SideNodes(nodes);
  }

  /** The first `n` side nodes with how many of those carried have been used. */
  function Reading(bitMask: nat, sideNodes: seq<nat>, n: nat): (r: (SideNodes, nat))
    ensures r.1 <= |sideNodes|
  {
    if n == 0 then (SideNodes([]), 0)
    else
      match Reading(bitMask, sideNodes, n - 1)
      case (Reverted, used) => (Reverted, used)
      case (SideNodes(nodes), used) =>
        if Bit(bitMask, n - 1) != 0 then (SideNodes(nodes + [DEFAULT_VALUE]), used)
        else if used < |sideNodes| then (SideNodes(nodes + [sideNodes[used]]), used + 1)
        else (Reverted, used)
  }

  function Expanded(bitMask: nat, sideNodes: seq<nat>, n: nat): SideNodes {
    Reading(bitMask, sideNodes, n).0
  }

  lemma {:induction false} RevertedStays(bitMask: nat, sideNodes: seq<nat>, m: nat, n: nat)
    requires m <= n && Expanded(bitMask, sideNodes, m) == Reverted
    ensures Expanded(bitMask, sideNodes, n) == Reverted
    decreases n
  {
    if m < n {
      RevertedStays(bitMask, sideNodes, m, n - 1);
    }
  }

  /** What the first side nodes carry is the first of what all carry. */
  lemma {:induction false} CompactedPrefix(nodes: seq<nat>, n: nat)
    requires n <= |nodes|
    ensures Compacted(nodes[..n]) <= Compacted(nodes)
  {
    if n < |nodes| {
      CompactedPrefix(nodes[..|nodes| - 1], n);
      assert nodes[..|nodes| - 1][..n] == nodes[..n];
    } else {
      assert nodes[..n] == nodes;
    }
  }

  lemma CompactedNext(nodes: seq<nat>, n: nat)
    requires 0 < n <= |nodes|
    ensures Compacted(nodes[..n]) ==
            Compacted(nodes[..n - 1]) + if nodes[n - 1] == DEFAULT_VALUE then [] else [nodes[n - 1]]
  {
    assert nodes[..n][..n - 1] == nodes[..n - 1];
  }

  /** A side node that is carried comes after those carried before it. */
  lemma CarriedInOrder(nodes: seq<nat>, n: nat)
    requires 0 < n <= |nodes| && nodes[n - 1] != DEFAULT_VALUE
    ensures var used := |Compacted(nodes[..n - 1])|;
            used < |Compacted(nodes)| && Compacted(nodes)[used] == nodes[n - 1]
  {
    CompactedNext(nodes, n);
    CompactedPrefix(nodes, n);
  }

  ghost predicate Selects(bitMask: nat, nodes: seq<nat>) {
    forall i: nat :: i < |nodes| ==> (Bit(bitMask, i) != 0 <==> nodes[i] == DEFAULT_VALUE)
  }

  lemma {:induction false} ReadingCompacted(bitMask: nat, nodes: seq<nat>, n: nat)
    requires Selects(bitMask, nodes) && n <= |nodes|
    ensures Reading(bitMask, Compacted(nodes), n) == (SideNodes(nodes[..n]), |Compacted(nodes[..n])|)
  {
    if n > 0 {
      ReadingCompacted(bitMask, nodes, n - 1);
      CompactedNext(nodes, n);
      FirstNodes(nodes, n);
      if nodes[n - 1] != DEFAULT_VALUE {
        CarriedInOrder(nodes, n);
      }
      ReadOne(bitMask, Compacted(nodes), n, nodes[..n - 1], |Compacted(nodes[..n - 1])|, nodes[n - 1]);
    }
  }

  lemma FirstNodes(nodes: seq<nat>, n: nat)
    requires 0 < n <= |nodes|
    ensures nodes[..n] == nodes[..n - 1] + [nodes[n - 1]]
  {
  }

  lemma ReadOne(bitMask: nat, sideNodes: seq<nat>, n: nat, before: seq<nat>, used: nat, next: nat)
    requires n > 0 && Reading(bitMask, sideNodes, n - 1) == (SideNodes(before), used)
    requires Bit(bitMask, n - 1) != 0 <==> next == DEFAULT_VALUE
    requires next != DEFAULT_VALUE ==> used < |sideNodes| && sideNodes[used] == next
    ensures Reading(bitMask, sideNodes, n) ==
            (SideNodes(before + [next]), used + if next == DEFAULT_VALUE then 0 else 1)
  {
  }

  /** From the formatted mask and the side nodes carried, the contract reads every side node of the proof. */
  lemma ContractReadsEverySideNode(mask: seq<Byte>, nodes: seq<nat>)
    requires Marks(mask, nodes)
    ensures Expanded(BigEndian(Formatted(mask)), Compacted(nodes), |nodes|) == SideNodes(nodes)
  {
    forall i: nat | i < |nodes|
      ensures Bit(BigEndian(Formatted(mask)), i) == MostSignificantFirst(mask, i)
    {
      FormattedBit(mask, i);
    }
    ReadingCompacted(BigEndian(Formatted(mask)), nodes, |nodes|);
    assert nodes[..|nodes|] == nodes;
  }
}
