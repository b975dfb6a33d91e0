/**
 The bump allocator of the core program: blocks are handed out upwards from the start of the heap, whose
 first word holds the position. Machine words are naturals below 2^64, with `and` defined bit by bit.
 */
module Allocator {
  import opened Foundations

  const HEAP_START: nat := 0x3_0000_0000

  const HEAP_LENGTH: nat := 8 * 32 * 1024

  const TOP: nat := HEAP_START + HEAP_LENGTH

  /** The heap less the eight bytes of the position word. */
  const BOTTOM: nat := HEAP_START + 8

  const WORD_BITS: nat := 64

  // ---------- Bits ----------

  function Pow2(k: nat): (p: nat)
    ensures p > 0
  {
    if k == 0 then 1 else 2 * Pow2(k - 1)
  }

  function And(x: nat, y: nat): nat
    decreases x
  {
    if x == 0 then 0 else (x % 2) * (y % 2) + 2 * And(x / 2, y / 2)
  }

  /** The complement of a word of `width` bits. */
  function Not(width: nat, x: nat): nat
    requires x < Pow2(width)
  {
    Pow2(width) - 1 - x
  }

  lemma {:induction false} Pow2Mono(k: nat, w: nat)
    requires k <= w
    ensures Pow2(k) <= Pow2(w)
  {
    if k < w {
      Pow2Mono(k, w - 1);
    }
  }

  lemma {:induction false} AndAllOnes(w: nat, x: nat)
    requires x < Pow2(w)
    ensures And(x, Pow2(w) - 1) == x
  {
    if x > 0 {
      AndAllOnes(w - 1, x / 2);
      assert (Pow2(w) - 1) % 2 == 1 && (Pow2(w) - 1) / 2 == Pow2(w - 1) - 1;
    }
  }

  lemma ModHalves(x: nat, p: nat)
    requires p > 0
    ensures x % (2 * p) == 2 * (x / 2 % p) + x % 2
  {
    var q := x / 2;
    DivBounds(q, p);
    DivIs(x, 2 * p, q / p);
  }

  /** Masking with the complement of an alignment less one drops the remainder. */
  lemma MaskDropsRemainder(w: nat, k: nat, x: nat)
    requires x < Pow2(w) && k <= w
    ensures Pow2(k) - 1 < Pow2(w)
    ensures And(x, Not(w, Pow2(k) - 1)) == x - x % Pow2(k)
  {
    Pow2Mono(k, w);
    hide And;
    MaskDrops(w, k, x);
  }

  lemma {:induction false} MaskDrops(w: nat, k: nat, x: nat)
    requires x < Pow2(w) && k <= w && Pow2(k) <= Pow2(w)
    ensures And(x, Pow2(w) - Pow2(k)) == x - x % Pow2(k)
  {
    if k == 0 {
      AndAllOnes(w, x);
      hide And;
      assert Pow2(0) == 1;
    } else if x > 0 {
      assert Pow2(w) == 2 * Pow2(w - 1) && x / 2 < Pow2(w - 1);
      Pow2Mono(k - 1, w - 1);
      hide And, Pow2;
      MaskDrops(w - 1, k - 1, x / 2);
      MaskWider(w, k, x);
    } else {
      ModZero(Pow2(k));
      hide Pow2;
    }
  }

  lemma ModZero(a: nat)
    requires a > 0
    ensures 0 % a == 0
  {
  }

  lemma MaskWider(w: nat, k: nat, x: nat)
    requires 0 < k <= w && 0 < x && Pow2(k - 1) <= Pow2(w - 1) && Pow2(k) <= Pow2(w)
    requires And(x / 2, Pow2(w - 1) - Pow2(k - 1)) == x / 2 - x / 2 % Pow2(k - 1)
    ensures And(x, Pow2(w) - Pow2(k)) == x - x % Pow2(k)
  {
    var p, a := Pow2(w - 1), Pow2(k - 1);
    assert Pow2(w) == 2 * p && Pow2(k) == 2 * a;
    hide Pow2, And;
    MaskStep(x, p - a, a);
  }

  lemma MaskStep(x: nat, z: nat, a: nat)
    requires 0 < a && 0 < x && And(x / 2, z) == x / 2 - x / 2 % a
    ensures And(x, 2 * z) == x - x % (2 * a)
  {
    AndDoubled(x, z);
    hide And;
    ModHalves(x, a);
  }

  lemma AndDoubled(x: nat, z: nat)
    requires 0 < x
    ensures And(x, 2 * z) == 2 * And(x / 2, z)
  {
    var y := 2 * z;
    assert y % 2 == 0 && y / 2 == z;
  }

  // ---------- Allocation ----------

  /** A request's size and the exponent of its alignment, as a `Layout` allows them. */
  datatype Layout = Layout(size: nat, alignBits: nat)

  datatype Address = Null | At(address: nat)

  predicate IsLayout(l: Layout) {
    l.alignBits < WORD_BITS && l.size <= U64_MAX
  }

  predicate ValidWord(word: nat) {
    word == 0 || BOTTOM <= word <= TOP
  }

  lemma {:induction false} Pow2Sum(j: nat, k: nat)
    ensures Pow2(j + k) == Pow2(j) * Pow2(k)
  {
    if j > 0 {
      Pow2Sum(j - 1, k);
      assert Pow2(j + k) == 2 * Pow2(j - 1 + k) && Pow2(j) == 2 * Pow2(j - 1);
      hide Pow2;
      TwiceProduct(Pow2(j - 1), Pow2(k));
    }
  }

  lemma TwiceProduct(a: nat, b: nat)
    ensures 2 * a * b == 2 * (a * b)
  {
  }

  lemma Pow2Values()
    ensures Pow2(64) == U64_MAX + 1 && Pow2(63) == 0x8000_0000_0000_0000
  {
    assert Pow2(8) == 0x100;
    assert Pow2(64) == 2 * Pow2(63);
    hide Pow2;
    Pow2Sum(8, 8);
    Pow2Sum(16, 16);
    Pow2Sum(32, 32);
  }

  /** Where the next block may start: a zero word means nothing has been handed out. */
  function Cursor(word: nat): nat {
    if word == 0 then BOTTOM else word
  }

  lemma WordFits(word: nat, l: Layout)
    requires IsLayout(l) && ValidWord(word)
    ensures Pow2(WORD_BITS) == U64_MAX + 1
    ensures Pow2(l.alignBits) - 1 < Pow2(WORD_BITS) && Cursor(word) + Pow2(l.alignBits) - 1 < Pow2(WORD_BITS)
  {
    Pow2Values();
    hide Pow2;
    Pow2Mono(l.alignBits, 63);
  }

  function Aligned(word: nat, l: Layout): nat
    requires IsLayout(l) && ValidWord(word)
  {
    WordFits(word, l);
    And(Cursor(word) + Pow2(l.alignBits) - 1, Not(WORD_BITS, Pow2(l.alignBits) - 1))
  }

  /** The block handed out, and the position word after the call. */
  function Allocated(word: nat, l: Layout): (Address, nat)
    requires IsLayout(l) && ValidWord(word)
  {
    var position := Aligned(word, l);
    var next := SatAdd(position, l.size);
    if next > TOP then (Null, word) else (At(position), next)
  }

  /** The least multiple of `a` from `c` on. */
  function RoundUp(c: nat, a: nat): nat
    requires a > 0
  {
    c + a - 1 - (c + a - 1) % a
  }

  lemma AlignedIsRoundUp(word: nat, l: Layout)
    requires IsLayout(l) && ValidWord(word)
    ensures Aligned(word, l) == RoundUp(Cursor(word), Pow2(l.alignBits))
  {
    WordFits(word, l);
    hide And, Not, Pow2, Cursor;
    MaskDropsRemainder(WORD_BITS, l.alignBits, Cursor(word) + Pow2(l.alignBits) - 1);
  }

  /** The mask finds the least aligned address from the cursor on. */
  lemma LeastAligned(word: nat, l: Layout, other: nat)
    requires IsLayout(l) && ValidWord(word)
    ensures var p, a := Aligned(word, l), Pow2(l.alignBits);
            && p % a == 0 && Cursor(word) <= p < Cursor(word) + a
            && (other % a == 0 && Cursor(word) <= other ==> p <= other)
  {
    AlignedIsRoundUp(word, l);
    hide Aligned, RoundUp, Pow2, Cursor;
    RoundedUp(Cursor(word), Pow2(l.alignBits), other);
  }

  lemma RoundedUp(c: nat, a: nat, other: nat)
    requires a > 0
    ensures var p := RoundUp(c, a);
            && p % a == 0 && c <= p < c + a
            && (other % a == 0 && c <= other ==> p <= other)
  {
    var x := c + a - 1;
    var q := x / a;
    assert x == a * q + x % a;
    var p := a * q;
    DivIs(p, a, q);
    assert p % a == 0;
    if other % a == 0 && c <= other && other < p {
      assert other == a * (other / a);
      var r := other / a;
      if r >= q {
        MulMono(q, r, a);
      } else {
        MulMono(r + 1, q, a);
      }
    }
  }

  /** A call succeeds exactly when the least aligned block ends within the heap; a failed call changes nothing. */
  lemma SucceedsIff(word: nat, l: Layout)
    requires IsLayout(l) && ValidWord(word)
    ensures var (r, word') := Allocated(word, l);
            && (r.At? <==> Aligned(word, l) + l.size <= TOP)
            && (r.Null? ==> word' == word)
            && (r.At? ==> r.address == Aligned(word, l) && word' == r.address + l.size && ValidWord(word'))
            && (Cursor(word) + l.size + Pow2(l.alignBits) - 1 <= TOP ==> r.At?)
  {
    LeastAligned(word, l, 0);
    hide Aligned, Pow2;
  }

  // ---------- Runs ----------

  datatype Block = Block(address: nat, size: nat, alignBits: nat)

  /** The blocks a run of requests is given, in order; refused requests leave no block. */
  function Blocks(word: nat, requests: seq<Layout>): seq<Block>
    requires ValidWord(word) && forall i :: 0 <= i < |requests| ==> IsLayout(requests[i])
    decreases |requests|
  {
    if requests == [] then []
    else
      SucceedsIff(word, requests[0]);
      var (r, word') := Allocated(word, requests[0]);
      match r
      case Null => Blocks(word', requests[1..])
      case At(address) => [Block(address, requests[0].size, requests[0].alignBits)] + Blocks(word', requests[1..])
  }

  predicate InHeap(b: Block, from: nat) {
    from <= b.address && b.address + b.size <= TOP && b.address % Pow2(b.alignBits) == 0
  }

  predicate Before(b: Block, c: Block) {
    b.address + b.size <= c.address
  }

  lemma {:induction false} BlocksFrom(word: nat, requests: seq<Layout>)
    requires ValidWord(word) && forall i :: 0 <= i < |requests| ==> IsLayout(requests[i])
    ensures forall i :: 0 <= i < |Blocks(word, requests)| ==> InHeap(Blocks(word, requests)[i], Cursor(word))
    ensures forall i, j :: 0 <= i < j < |Blocks(word, requests)| ==>
              Before(Blocks(word, requests)[i], Blocks(word, requests)[j])
    decreases |requests|
  {
    if requests != [] {
      var l := requests[0];
      SucceedsIff(word, l);
      LeastAligned(word, l, 0);
      var (r, word') := Allocated(word, l);
      BlocksFrom(word', requests[1..]);
      hide Allocated, Aligned, Pow2;
      var rest := Blocks(word', requests[1..]);
      forall i | 0 <= i < |rest| ensures InHeap(rest[i], Cursor(word)) {
        assert InHeap(rest[i], Cursor(word'));
      }
      if r.At? {
        forall i | 0 <= i < |rest| ensures Before(Block(r.address, l.size, l.alignBits), rest[i]) {
          assert InHeap(rest[i], Cursor(word'));
        }
      }
    }
  }

  /**
   From a fresh heap, whatever is requested: every block is aligned, lies within the heap off the
   position word, and overlaps no other.
   */
  lemma BlocksDisjoint(requests: seq<Layout>, i: nat, j: nat)
    requires forall k :: 0 <= k < |requests| ==> IsLayout(requests[k])
    requires i < |Blocks(0, requests)| && j < |Blocks(0, requests)| && i != j
    ensures var b, c := Blocks(0, requests)[i], Blocks(0, requests)[j];
            && BOTTOM <= b.address && b.address + b.size <= TOP && b.address % Pow2(b.alignBits) == 0
            && (b.address + b.size <= c.address || c.address + c.size <= b.address)
  {
    BlocksFrom(0, requests);
    var bs := Blocks(0, requests);
    hide Blocks, Pow2;
    assert InHeap(bs[i], BOTTOM);
    assert if i < j then Before(bs[i], bs[j]) else Before(bs[j], bs[i]);
  }

  class BumpAllocator {
    var positionWord: nat

    constructor ()
      ensures positionWord == 0
    {
      positionWord := 0;
    }

    method Alloc(l: Layout) returns (r: Address)
      requires IsLayout(l) && ValidWord(positionWord)
      modifies this
      ensures ValidWord(positionWord)
      ensures (r, positionWord) == Allocated(old(positionWord), l)
      ensures r.At? <==> Aligned(old(positionWord), l) + l.size <= TOP
      ensures r.Null? ==> positionWord == old(positionWord)
      ensures r.At? ==> r.address % Pow2(l.alignBits) == 0 && positionWord == r.address + l.size
    {
      SucceedsIff(positionWord, l);
      LeastAligned(positionWord, l, 0);
      WordFits(positionWord, l);
      hide Pow2;
      var position := positionWord;
      if position == 0 {
        position := BOTTOM;
      }
      position := And(position + Pow2(l.alignBits) - 1, Not(WORD_BITS, Pow2(l.alignBits) - 1));
      var next := SatAdd(position, l.size);
      if next > TOP {
        return Null;
      }
      positionWord := next;
      r := At(position);
    }
  }
}
