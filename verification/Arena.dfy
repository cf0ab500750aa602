/** The bump allocator: aligned blocks between canaries in one byte buffer. */
module Arena {
  import opened Bytes
  import opened Options

  const ALIGNMENT: nat := 64
  const CANARY_SIZE: nat := 64
  const CANARY: byte := 0xDB

  /** Offset and size of a user block inside the buffer. */
  datatype Block = Block(offset: nat, size: nat)

  /** The allocator on values: the address of the buffer, its bytes, the bump pointer
      and the live blocks. */
  datatype State = State(base: nat, capacity: nat, bytes: Str, used: nat, blocks: seq<Block>)

  function AlignUp(address: nat): (a: nat)
    ensures a % ALIGNMENT == 0 && address <= a < address + ALIGNMENT
  {
    (address + 63) / 64 * 64
  }

  function PaddingAt(base: nat, used: nat): (p: nat)
    ensures p < ALIGNMENT && (base + used + p) % ALIGNMENT == 0
  {
    AlignUp(base + used) - (base + used)
  }

  /** The bytes an allocation consumes. */
  function Cost(base: nat, used: nat, size: nat): nat {
    PaddingAt(base, used) + CANARY_SIZE + size + CANARY_SIZE
  }

  /** Where the first `n` blocks end, footer included. */
  function End(blocks: seq<Block>, n: nat): nat
    requires n <= |blocks|
  {
    if n == 0 then 0 else blocks[n - 1].offset + blocks[n - 1].size + CANARY_SIZE
  }

  /** The bump pointer is within the capacity, and the end of the buffer is an address. */
  ghost predicate Sized(s: State) {
    |s.bytes| == s.capacity * 3 + ALIGNMENT && s.base + |s.bytes| < TWO_64 && s.used <= s.capacity
  }

  /** Each block is placed at the first aligned address after the previous one. */
  ghost predicate Placed(s: State) {
    && Sized(s) && s.used == End(s.blocks, |s.blocks|)
    && forall k :: 0 <= k < |s.blocks| ==> PlacedAt(s, k)
  }

  ghost predicate PlacedAt(s: State, k: nat)
    requires k < |s.blocks|
  {
    s.blocks[k].offset == End(s.blocks, k) + PaddingAt(s.base, End(s.blocks, k)) + CANARY_SIZE
  }

  /** Where the footer of a block is, relative to the buffer: its address is reduced to
      64 bits. */
  function FooterOf(b: Block): int {
    b.offset + b.size - if b.offset + b.size + CANARY_SIZE < TWO_64 then 0 else TWO_64
  }

  /** The bytes of a canary at an offset; only the part inside the buffer is seen here. */
  ghost predicate IsCanary(bytes: Str, at: int) {
    forall i :: at <= i < at + CANARY_SIZE && 0 <= i < |bytes| ==> bytes[i] == CANARY
  }

  ghost predicate BlockIntact(bytes: Str, b: Block) {
    IsCanary(bytes, b.offset - CANARY_SIZE) && IsCanary(bytes, FooterOf(b))
  }

  /** Every canary byte of every live block is untouched. */
  ghost predicate Intact(s: State) {
    forall k :: 0 <= k < |s.blocks| ==> BlockIntact(s.bytes, s.blocks[k])
  }

  /** A canary written at an offset. */
  function Fill(bytes: Str, at: int): (r: Str)
    ensures |r| == |bytes|
  {
    seq(|bytes|, i requires 0 <= i < |bytes| => if at <= i < at + CANARY_SIZE then CANARY else bytes[i])
  }

  /** What the bump pointer would be after an allocation. */
  function Sum(s: State, size: nat): nat {
    s.used + Cost(s.base, s.used, size)
  }

  predicate Fits(s: State, size: nat) {
    Sum(s, size) <= s.capacity
  }

  /** The sum exceeds 64 bits and is at most the capacity once reduced. */
  predicate Wraps(s: State, size: nat) {
    TWO_64 <= Sum(s, size) <= TWO_64 + s.capacity
  }

  /** The bounds test of the code, with its sums reduced to 64 bits. */
  predicate Accepts(s: State, size: nat) {
    ((s.used + PaddingAt(s.base, s.used)) % TWO_64 + (CANARY_SIZE + size + CANARY_SIZE) % TWO_64) % TWO_64 <= s.capacity
  }

  function HeaderAt(s: State): nat {
    s.used + PaddingAt(s.base, s.used)
  }

  function NewBlock(s: State, size: nat): Block {
    Block(HeaderAt(s) + CANARY_SIZE, size)
  }

  function Allocate(s: State, size: nat): State {
    s.(bytes := Fill(Fill(s.bytes, HeaderAt(s)), FooterOf(NewBlock(s, size))),
       used := Sum(s, size) - if Sum(s, size) < TWO_64 then 0 else TWO_64,
       blocks := s.blocks + [NewBlock(s, size)])
  }

  // ---- Layout ----

  /** Header, user block and footer of an earlier block end before those of a later one
      begin, and all lie inside the used part of the capacity. */
  lemma {:induction false} Disjoint(s: State, j: nat, k: nat)
    requires Placed(s) && j <= k < |s.blocks|
    ensures CANARY_SIZE <= s.blocks[j].offset
    ensures j < k ==> s.blocks[j].offset + s.blocks[j].size + CANARY_SIZE <= s.blocks[k].offset - CANARY_SIZE
    ensures s.blocks[j].offset + s.blocks[j].size + CANARY_SIZE <= s.used <= s.capacity
    decreases |s.blocks| - j
  {
    assert PlacedAt(s, j);
    if j + 1 < |s.blocks| {
      assert PlacedAt(s, j + 1);
      Disjoint(s, j + 1, if j < k then k else j + 1);
    }
  }

  /** Every user pointer is 64-byte aligned, whatever the address of the buffer. */
  lemma Aligned(s: State, k: nat)
    requires Placed(s) && k < |s.blocks|
    ensures (s.base + s.blocks[k].offset) % ALIGNMENT == 0
  {
    assert PlacedAt(s, k);
    AddAlignment(s.base + s.blocks[k].offset - 64);
  }

  lemma AddAlignment(x: nat)
    requires x % 64 == 0
    ensures (x + 64) % 64 == 0
  {
  }

  function Consumed(base: nat, blocks: seq<Block>): nat {
    if blocks == [] then 0
    else
      var n := |blocks| - 1;
      Consumed(base, blocks[..n]) + Cost(base, End(blocks, n), blocks[n].size)
  }

  /** The bump pointer is the sum of padding, size and canaries of the live blocks. */
  lemma {:induction false} Accounting(s: State, n: nat)
    requires Placed(s) && n <= |s.blocks|
    ensures Consumed(s.base, s.blocks[..n]) == End(s.blocks, n)
    ensures n == |s.blocks| ==> Consumed(s.base, s.blocks) == s.used
  {
    if n != 0 {
      Accounting(s, n - 1);
      assert PlacedAt(s, n - 1);
      assert s.blocks[..n][..n - 1] == s.blocks[..n - 1];
      assert End(s.blocks[..n], n - 1) == End(s.blocks, n - 1);
    }
    assert s.blocks[..|s.blocks|] == s.blocks;
  }

  /** When all sizes are multiples of 64, only the first block can be padded. */
  lemma OnlyFirstPadded(s: State, k: nat)
    requires Placed(s) && 0 < k <= |s.blocks|
    requires s.blocks[k - 1].size % 64 == 0
    ensures PaddingAt(s.base, End(s.blocks, k)) == 0
  {
    Aligned(s, k - 1);
    var a, size := s.base + s.blocks[k - 1].offset, s.blocks[k - 1].size;
    MultiplesAdd(a, size);
    assert s.base + End(s.blocks, k) == a + size + 64;
    AlignedStays(a + size + 64);
  }

  lemma MultiplesAdd(a: nat, b: nat)
    requires a % 64 == 0 && b % 64 == 0
    ensures (a + b + 64) % 64 == 0
  {
  }

  lemma AlignedStays(a: nat)
    requires a % 64 == 0
    ensures AlignUp(a) == a
  {
  }

  // ---- The bounds test in 64-bit arithmetic ----

  /** For every `size_t` the test accepts what fits, and besides exactly the sizes for
      which the sum wraps to at most the capacity. */
  lemma AcceptsExactly(s: State, size: nat)
    requires Sized(s) && size < TWO_64
    ensures Accepts(s, size) <==> Fits(s, size) || Wraps(s, size)
  {
    hide PaddingAt;
    var low, high: nat := s.used + PaddingAt(s.base, s.used), CANARY_SIZE + size + CANARY_SIZE;
    Reduced(low);
    Reduced(high);
    Reduced(low + high % TWO_64);
  }

  lemma Reduced(x: nat)
    requires x < 2 * TWO_64
    ensures x % TWO_64 == if x < TWO_64 then x else x - TWO_64
  {
  }

  /** After a wrapping request the footer lies before the user block, at most one canary
      before the buffer and never past the capacity. */
  lemma WrappedFooter(s: State, size: nat)
    requires size < TWO_64 && Wraps(s, size)
    ensures -64 <= FooterOf(NewBlock(s, size)) <= s.capacity - 64
    ensures FooterOf(NewBlock(s, size)) < HeaderAt(s) + CANARY_SIZE
  {
    hide PaddingAt;
  }

  // ---- Runs ----

  /** A client asks for any `size_t`, and writes only inside a live user block. */
  datatype Op = Request(size: nat) | Reset | Write(block: nat, index: nat, value: byte)

  ghost predicate Legal(s: State, op: Op) {
    match op
    case Request(size) => size < TWO_64
    case Reset => true
    case Write(k, i, _) => k < |s.blocks| && i < s.blocks[k].size
  }

  ghost predicate WrapsAt(s: State, op: Op) {
    op.Request? && Wraps(s, op.size)
  }

  /** The address a client writes to, relative to the buffer and reduced to 64 bits. */
  function WrittenAt(b: Block, index: nat): int {
    b.offset + index - if b.offset + index < TWO_64 then 0 else TWO_64
  }

  function Poke(bytes: Str, at: int, value: byte): Str {
    if 0 <= at < |bytes| then bytes[at := value] else bytes
  }

  /** A request takes the branch the 64-bit test selects. */
  ghost function Apply(s: State, op: Op): State
    requires Legal(s, op)
  {
    match op
    case Request(size) => if Accepts(s, size) then Allocate(s, size) else s
    case Reset => s.(used := 0, blocks := [])
    case Write(k, i, value) => s.(bytes := Poke(s.bytes, WrittenAt(s.blocks[k], i), value))
  }

  lemma AllocatePlaced(s: State, size: nat)
    requires Placed(s) && Fits(s, size)
    ensures Placed(Allocate(s, size))
  {
    hide PaddingAt, Fill;
    var t := Allocate(s, size);
    forall k | 0 <= k < |t.blocks|
      ensures PlacedAt(t, k)
    {
      assert k < |s.blocks| ==> PlacedAt(s, k);
      assert End(t.blocks, k) == End(s.blocks, k);
    }
  }

  /** Writing a canary breaks none. */
  lemma FillCanary(bytes: Str, at: int, c: int)
    ensures IsCanary(Fill(bytes, at), at)
    ensures IsCanary(bytes, c) ==> IsCanary(Fill(bytes, at), c)
  {
  }

  lemma AllocateIntact(s: State, size: nat)
    requires Intact(s)
    ensures Intact(Allocate(s, size))
  {
    hide PaddingAt, Fill, IsCanary;
    var t, header, footer := Allocate(s, size), HeaderAt(s), FooterOf(NewBlock(s, size));
    var bytes := Fill(s.bytes, header);
    forall k | 0 <= k < |t.blocks|
      ensures BlockIntact(t.bytes, t.blocks[k])
    {
      if k < |s.blocks| {
        var b := s.blocks[k];
        assert BlockIntact(s.bytes, b);
        FillCanary(s.bytes, header, b.offset - CANARY_SIZE);
        FillCanary(s.bytes, header, FooterOf(b));
        FillCanary(bytes, footer, b.offset - CANARY_SIZE);
        FillCanary(bytes, footer, FooterOf(b));
      } else {
        FillCanary(s.bytes, header, header);
        FillCanary(bytes, footer, header);
      }
    }
  }

  lemma FillAfter(bytes: Str, at: nat, from: nat, to: nat)
    requires from <= to <= at && to <= |bytes|
    ensures Fill(bytes, at)[from..to] == bytes[from..to]
  {
  }

  /** A request that does not wrap leaves the bytes of every live block as they were. */
  lemma UserBytesKept(s: State, size: nat, k: nat)
    requires Placed(s) && size < TWO_64 && !Wraps(s, size) && k < |s.blocks|
    ensures var (from, to) := (s.blocks[k].offset, s.blocks[k].offset + s.blocks[k].size);
            to <= |s.bytes| && Apply(s, Request(size)).bytes[from..to] == s.bytes[from..to]
  {
    hide PaddingAt, Fill, Accepts;
    Disjoint(s, k, k);
    AcceptsExactly(s, size);
    if Fits(s, size) {
      var to := s.blocks[k].offset + s.blocks[k].size;
      FillAfter(s.bytes, HeaderAt(s), s.blocks[k].offset, to);
      FillAfter(Fill(s.bytes, HeaderAt(s)), FooterOf(NewBlock(s, size)), s.blocks[k].offset, to);
    }
  }

  /** A fitting request gets a block of its size after all others, with 64 bytes 0xDB
      before and after it, and changes no other byte. */
  lemma FreshBlock(s: State, size: nat)
    requires Placed(s) && Fits(s, size)
    ensures Apply(s, Request(size)) == Allocate(s, size)
    ensures var t := Allocate(s, size);
            var (from, to) := (t.used - size - 64, t.used - 64);
            && s.used + 64 <= from && t.blocks == s.blocks + [Block(from, size)]
            && |t.bytes| == |s.bytes| && to + 64 <= |t.bytes|
            && forall i :: 0 <= i < |t.bytes| ==>
                             t.bytes[i] == if from - 64 <= i < from || to <= i < to + 64 then 0xDB else s.bytes[i]
  {
    hide PaddingAt, Accepts;
    AcceptsExactly(s, size);
  }

  /** A wrapping request keeps the bytes of a live block exactly when its footer only
      meets bytes of it that hold the canary value already. */
  lemma WrappedBytesExactly(s: State, size: nat, k: nat)
    requires Placed(s) && size < TWO_64 && Wraps(s, size) && k < |s.blocks|
    ensures var (from, to) := (s.blocks[k].offset, s.blocks[k].offset + s.blocks[k].size);
            var footer := FooterOf(NewBlock(s, size));
            to <= |s.bytes|
            && (Apply(s, Request(size)).bytes[from..to] == s.bytes[from..to]
                <==> forall i :: from <= i < to && footer <= i < footer + CANARY_SIZE ==> s.bytes[i] == CANARY)
  {
    hide PaddingAt, Fill, Accepts, Wraps;
    Disjoint(s, k, k);
    AcceptsExactly(s, size);
    var from, to := s.blocks[k].offset, s.blocks[k].offset + s.blocks[k].size;
    FillAfter(s.bytes, HeaderAt(s), from, to);
    FillMeets(Fill(s.bytes, HeaderAt(s)), FooterOf(NewBlock(s, size)), from, to);
    SamePart(s.bytes, Fill(s.bytes, HeaderAt(s)), from, to);
  }

  lemma SamePart(a: Str, b: Str, from: nat, to: nat)
    requires from <= to <= |a| == |b| && a[from..to] == b[from..to]
    ensures forall i :: from <= i < to ==> a[i] == b[i]
  {
    assert forall i :: from <= i < to ==> a[i] == a[from..to][i - from] && b[i] == b[from..to][i - from];
  }

  lemma FillMeets(bytes: Str, at: int, from: nat, to: nat)
    requires from <= to <= |bytes|
    ensures Fill(bytes, at)[from..to] == bytes[from..to]
       <==> forall i :: from <= i < to && at <= i < at + CANARY_SIZE ==> bytes[i] == CANARY
  {
    if Fill(bytes, at)[from..to] == bytes[from..to] {
      forall i | from <= i < to && at <= i < at + CANARY_SIZE
        ensures bytes[i] == CANARY
      {
        assert Fill(bytes, at)[from..to][i - from] == bytes[from..to][i - from];
      }
    }
  }

  /** A block that ends beyond the capacity. */
  ghost predicate Displaced(s: State) {
    exists k :: 0 <= k < |s.blocks| && s.blocks[k].offset + s.blocks[k].size + CANARY_SIZE > s.capacity
  }

  lemma DisplacedNotPlaced(s: State)
    requires Displaced(s)
    ensures !Placed(s)
  {
    if Placed(s) {
      var k :| 0 <= k < |s.blocks| && s.blocks[k].offset + s.blocks[k].size + CANARY_SIZE > s.capacity;
      Disjoint(s, k, k);
      assert false;
    }
  }

  /** A request keeps the blocks placed exactly when its sum does not wrap to at most the
      capacity. The canaries the arena looks at are intact either way: a wrapping request
      writes its footer where the arena will look for it. */
  lemma RequestKeepsExactly(s: State, size: nat)
    requires Placed(s) && Intact(s) && size < TWO_64
    ensures Placed(Apply(s, Request(size))) <==> !Wraps(s, size)
    ensures Wraps(s, size) ==> Displaced(Apply(s, Request(size)))
    ensures Intact(Apply(s, Request(size)))
  {
    hide PaddingAt, Fill, Accepts, BlockIntact;
    AcceptsExactly(s, size);
    AllocateIntact(s, size);
    if Fits(s, size) {
      AllocatePlaced(s, size);
    } else if Wraps(s, size) {
      var t := Allocate(s, size);
      assert t.blocks[|s.blocks|] == NewBlock(s, size);
      assert Displaced(t);
      DisplacedNotPlaced(t);
    }
  }

  lemma WriteKeeps(s: State, k: nat, i: nat, value: byte)
    requires Placed(s) && Legal(s, Write(k, i, value))
    ensures Placed(Apply(s, Write(k, i, value)))
    ensures Intact(s) ==> Intact(Apply(s, Write(k, i, value)))
  {
    hide PaddingAt;
    var t := Apply(s, Write(k, i, value));
    Disjoint(s, k, k);
    var at := s.blocks[k].offset + i;
    forall j | 0 <= j < |t.blocks|
      ensures PlacedAt(t, j)
      ensures BlockIntact(s.bytes, s.blocks[j]) ==> BlockIntact(t.bytes, t.blocks[j])
    {
      assert PlacedAt(s, j);
      Disjoint(s, j, j);
      if j < k {
        Disjoint(s, j, k);
      } else if k < j {
        Disjoint(s, k, j);
      }
    }
  }

  ghost predicate Run(states: seq<State>, ops: seq<Op>) {
    && |states| == |ops| + 1
    && forall i :: 0 <= i < |ops| ==> Steps(states[i], ops[i], states[i + 1])
  }

  ghost predicate Steps(s: State, op: Op, t: State) {
    Legal(s, op) && t == Apply(s, op)
  }

  /** A request has wrapped since the last reset. */
  ghost predicate WrapLive(states: seq<State>, ops: seq<Op>, n: nat)
    requires Run(states, ops) && n < |states|
  {
    n != 0 && !ops[n - 1].Reset? && (WrapsAt(states[n - 1], ops[n - 1]) || WrapLive(states, ops, n - 1))
  }

  /** At any point of a run the blocks are placed exactly when no request has wrapped
      since the last reset, and then every canary is intact. */
  lemma {:induction false} RunSafe(states: seq<State>, ops: seq<Op>, n: nat)
    requires Run(states, ops) && Placed(states[0]) && Intact(states[0]) && n < |states|
    ensures Placed(states[n]) <==> !WrapLive(states, ops, n)
    ensures Placed(states[n]) ==> Intact(states[n])
    ensures Sized(states[n]) && (WrapLive(states, ops, n) ==> Displaced(states[n]))
  {
    hide Placed, Intact, Sized, Displaced;
    if n == 0 {
      SizedFrom(states[0]);
    } else {
      RunSafe(states, ops, n - 1);
      assert Steps(states[n - 1], ops[n - 1], states[n]);
      if WrapLive(states, ops, n - 1) {
        DisplacedStep(states[n - 1], ops[n - 1]);
      } else {
        StepKeepsExactly(states[n - 1], ops[n - 1]);
      }
    }
  }

  lemma SizedFrom(s: State)
    requires Placed(s)
    ensures Sized(s)
  {
  }

  /** A displaced block stays until a reset, which puts everything right. */
  lemma DisplacedStep(s: State, op: Op)
    requires Sized(s) && Displaced(s) && Legal(s, op)
    ensures Sized(Apply(s, op))
    ensures op.Reset? ==> Placed(Apply(s, op)) && Intact(Apply(s, op))
    ensures !op.Reset? ==> Displaced(Apply(s, op)) && !Placed(Apply(s, op))
  {
    hide Placed, PaddingAt, Fill, Accepts, Wraps;
    var t := Apply(s, op);
    if op.Reset? {
      ResetSafe(s);
    } else {
      if op.Request? {
        RequestOutcome(s, op.size);
      }
      var k :| 0 <= k < |s.blocks| && s.blocks[k].offset + s.blocks[k].size + CANARY_SIZE > s.capacity;
      assert t.blocks[k] == s.blocks[k];
      DisplacedNotPlaced(t);
    }
  }

  lemma ResetSafe(s: State)
    requires Sized(s)
    ensures Placed(Apply(s, Reset)) && Intact(Apply(s, Reset))
  {
  }

  /** A run stays safe throughout exactly when none of its requests wraps. */
  lemma RunSafeExactly(states: seq<State>, ops: seq<Op>)
    requires Run(states, ops) && Placed(states[0]) && Intact(states[0])
    ensures (forall n :: 0 <= n < |states| ==> Placed(states[n]) && Intact(states[n]))
       <==> forall i :: 0 <= i < |ops| ==> !WrapsAt(states[i], ops[i])
  {
    hide Placed, Intact, Wraps, Displaced, Sized;
    if forall i :: 0 <= i < |ops| ==> !WrapsAt(states[i], ops[i]) {
      forall n | 0 <= n < |states|
        ensures Placed(states[n]) && Intact(states[n])
      {
        NoWrapLive(states, ops, n);
        RunSafe(states, ops, n);
      }
    } else {
      var i :| 0 <= i < |ops| && WrapsAt(states[i], ops[i]);
      RunSafe(states, ops, i + 1);
      assert WrapLive(states, ops, i + 1);
    }
  }

  lemma {:induction false} NoWrapLive(states: seq<State>, ops: seq<Op>, n: nat)
    requires Run(states, ops) && n < |states|
    requires forall i :: 0 <= i < n ==> !WrapsAt(states[i], ops[i])
    ensures !WrapLive(states, ops, n)
  {
    if n != 0 {
      NoWrapLive(states, ops, n - 1);
    }
  }

  /** A run of requests and resets alone never breaks a canary the arena looks at,
      whatever wraps: only client writes can. */
  lemma {:induction false} WrapsUndetected(states: seq<State>, ops: seq<Op>, n: nat)
    requires Run(states, ops) && Intact(states[0]) && n < |states|
    requires forall i :: 0 <= i < n ==> !ops[i].Write?
    ensures Intact(states[n])
  {
    hide BlockIntact, Accepts;
    if n != 0 {
      WrapsUndetected(states, ops, n - 1);
      assert Steps(states[n - 1], ops[n - 1], states[n]);
      if ops[n - 1].Request? {
        AllocateIntact(states[n - 1], ops[n - 1].size);
      }
    }
  }

  lemma StepKeepsExactly(s: State, op: Op)
    requires Placed(s) && Intact(s) && Legal(s, op)
    ensures Placed(Apply(s, op)) <==> !WrapsAt(s, op)
    ensures Intact(Apply(s, op)) && Sized(Apply(s, op))
    ensures WrapsAt(s, op) ==> Displaced(Apply(s, op))
  {
    hide Placed, Intact, Sized;
    SizedFrom(s);
    match op
    case Request(size) =>
      RequestOutcome(s, size);
      RequestKeepsExactly(s, size);
    case Reset =>
      ResetSafe(s);
      SizedFrom(Apply(s, op));
    case Write(k, i, value) =>
      WriteKeeps(s, k, i, value);
      SizedFrom(Apply(s, op));
  }

  /** In an arena of 1024 bytes with one live block of 64, a request for 2^64 - 192 bytes
      is accepted; its footer overwrites the live block and the bump pointer drops. No
      canary is broken, but then any other value its owner writes to the block breaks one. */
  lemma WrappedRequest(base: nat, bytes: Str, value: byte) returns (s: State, t: State)
    requires base % 64 == 0 && |bytes| == 3136 && base + 3136 < TWO_64
    ensures s == State(base, 1024, bytes, 192, [Block(64, 64)]) && Placed(s)
    ensures t == Apply(s, Request(TWO_64 - 192)) && t.used == 128 && !Placed(t)
    ensures t.blocks == [Block(64, 64), Block(256, TWO_64 - 192)]
    ensures forall i :: 64 <= i < 128 ==> t.bytes[i] == CANARY
    ensures Intact(s) ==> Intact(t)
    ensures value != CANARY ==> !Intact(Apply(t, Write(0, 0, value)))
  {
    hide IsCanary, Placed;
    s := State(base, 1024, bytes, 192, [Block(64, 64)]);
    var size: nat := TWO_64 - 192;
    OneBlockPlaced(s);
    AlignedStays(base + 192);
    AcceptsExactly(s, size);
    t := Allocate(s, size);
    var footer := FooterOf(NewBlock(s, size));
    assert footer == 64 && t.blocks[1] == Block(256, size);
    if Intact(s) {
      AllocateIntact(s, size);
    }
    assert Displaced(t) by { assert t.blocks[1].offset + t.blocks[1].size + CANARY_SIZE > t.capacity; }
    DisplacedNotPlaced(t);
    if value != CANARY {
      var u := Apply(t, Write(0, 0, value));
      assert u.bytes[64] == value;
      Broken(u.bytes, 64);
      assert !BlockIntact(u.bytes, u.blocks[1]);
    }
  }

  lemma OneBlockPlaced(s: State)
    requires s.base % 64 == 0 && s.base + 3136 < TWO_64
    requires s == State(s.base, 1024, s.bytes, 192, [Block(64, 64)]) && |s.bytes| == 3136
    ensures Placed(s)
  {
    AlignedStays(s.base);
    assert PlacedAt(s, 0);
  }

  lemma Broken(bytes: Str, at: nat)
    requires at < |bytes| && bytes[at] != CANARY
    ensures !IsCanary(bytes, at)
  {
  }

  // ---- The class ----

  class ArenaAllocator {
    const base: nat
    const capacity: nat
    const buffer: array<byte>
    var used: nat
    var allocCount: nat
    var allocs: seq<Block>

    ghost function Value(): State
      reads this, buffer
    {
      State(base, capacity, buffer[..], used, allocs)
    }

    ghost predicate Valid()
      reads this, buffer
    {
      Placed(Value()) && allocCount == |allocs|
    }

    constructor (base: nat, capacity: nat)
      requires base + capacity * 3 + ALIGNMENT < TWO_64
      ensures Valid() && fresh(buffer)
      ensures this.base == base && this.capacity == capacity && used == 0 && allocs == []
    {
      this.base, this.capacity := base, capacity;
      used, allocCount, allocs := 0, 0, [];
      buffer := new byte[capacity * 3 + 64](_ => 0);
    }

    /** `std::memset` of one canary; bytes outside the buffer are not modelled. */
    method WriteCanary(at: int)
      modifies buffer
      ensures buffer[..] == Fill(old(buffer[..]), at)
    {
      for i := 0 to CANARY_SIZE
        invariant forall j :: 0 <= j < buffer.Length ==>
                                buffer[j] == if at <= j < at + i then CANARY else old(buffer[j])
      {
        if 0 <= at + i < buffer.Length {
          buffer[at + i] := CANARY;
        }
      }
    }

    /** The two canaries and the bookkeeping of an accepted request. */
    method PlaceBlock(header: nat, size: nat) returns (userAt: nat)
      requires header == HeaderAt(Value()) && header + size + 128 <= TWO_64 + capacity
      requires size < TWO_64
      modifies this, buffer
      ensures Value() == Allocate(old(Value()), size)
      ensures userAt == header + CANARY_SIZE && allocCount == old(allocCount) + 1
    {
      hide PaddingAt, Fill;
      var consumption := CANARY_SIZE + size + CANARY_SIZE;
      var wrapped := if header + consumption < TWO_64 then 0 else TWO_64;
      WriteCanary(header);
      userAt := header + CANARY_SIZE;
      WriteCanary(userAt + size - wrapped);
      used := header + consumption - wrapped;
      allocCount := allocCount + 1;
      allocs := allocs + [Block(userAt, size)];
    }

    /** Returns the offset of the user block, or nothing and leaves the arena as it was.
        Unless the request wraps, it gets a block exactly when one fits. */
    method AllocateBlock(size: nat) returns (user: Option<nat>)
      requires Sized(Value()) && size < TWO_64
      modifies this, buffer
      ensures Value() == Apply(old(Value()), Request(size)) && Sized(Value())
      ensures user.Some? <==> Accepts(old(Value()), size)
      ensures user.Some? ==> user.value == allocs[|allocs| - 1].offset && (base + user.value) % ALIGNMENT == 0
      ensures allocCount == old(allocCount) + if user.Some? then 1 else 0
      ensures old(Valid()) && !Wraps(old(Value()), size)
              ==> Valid() && (user.Some? <==> Fits(old(Value()), size))
                  && (user.Some? ==> user.value + size <= capacity)
    {
      hide Placed, Sized, AlignUp, Fill, Accepts, Fits, Wraps;
      ghost var before := Value();
      var currAddr := base + used;
      var alignedAddr := AlignUp(currAddr);
      var padding := alignedAddr - currAddr;
      var consumption := CANARY_SIZE + size + CANARY_SIZE;
      RequestOutcome(before, size);
      AcceptsByHeader(before, size);
      if ((used + padding) % TWO_64 + consumption % TWO_64) % TWO_64 > capacity {
        return None;
      }
      var userAt := PlaceBlock(alignedAddr - base, size);
      return Some(userAt);
    }

    method ResetAll()
      requires Valid()
      modifies this
      ensures Valid() && Value() == old(Value()).(used := 0, blocks := []) && allocCount == 0
    {
      used := 0;
      allocCount := 0;
      allocs := [];
    }

    /** False where the C++ method throws; bytes outside the buffer are not modelled. */
    method VerifyCanary(at: int) returns (ok: bool)
      ensures ok <==> IsCanary(buffer[..], at)
    {
      for i := 0 to CANARY_SIZE
        invariant forall j :: at <= j < at + i && 0 <= j < buffer.Length ==> buffer[j] == CANARY
      {
        if 0 <= at + i < buffer.Length && buffer[at + i] != CANARY {
          return false;
        }
      }
      return true;
    }

    /** Succeeds exactly when every canary byte of every live block is untouched, whatever
        was requested and written. */
    method Verify() returns (ok: bool)
      ensures ok <==> Intact(Value())
    {
      hide IsCanary;
      for k := 0 to |allocs|
        invariant forall j :: 0 <= j < k ==> BlockIntact(buffer[..], allocs[j])
      {
        var header := VerifyCanary(allocs[k].offset - CANARY_SIZE);
        if !header {
          return false;
        }
        var footer := VerifyCanary(FooterOf(allocs[k]));
        if !footer {
          return false;
        }
      }
      return true;
    }

    /** Whether an access passes. */
    method CheckAccess(address: nat, size: nat) returns (ok: bool)
      requires Sized(Value()) && address < TWO_64 && size < TWO_64
      ensures ok <==> Passes(Value(), address, size)
    {
      if address == 0 {
        return true;
      }
      var start, end := base, base + capacity;
      if address < start || (address + size) % TWO_64 > end {
        return false;
      }
      return true;
    }
  }

  /** What a request does to the bounds and to the block it adds. */
  lemma RequestOutcome(s: State, size: nat)
    requires Sized(s) && size < TWO_64
    ensures Sized(Apply(s, Request(size)))
    ensures (s.base + HeaderAt(s) + CANARY_SIZE) % ALIGNMENT == 0
    ensures Accepts(s, size) ==> Sum(s, size) <= TWO_64 + s.capacity
    ensures Placed(s) && !Wraps(s, size) ==> Placed(Apply(s, Request(size))) && (Accepts(s, size) <==> Fits(s, size))
    ensures Fits(s, size) ==> HeaderAt(s) + CANARY_SIZE + size <= s.capacity
  {
    hide Accepts, Placed, Fill;
    AcceptsExactly(s, size);
    AddAlignment(s.base + HeaderAt(s));
    if Placed(s) && Fits(s, size) {
      AllocatePlaced(s, size);
    }
  }

  lemma AcceptsByHeader(s: State, size: nat)
    ensures Accepts(s, size)
       <==> (HeaderAt(s) % TWO_64 + (CANARY_SIZE + size + CANARY_SIZE) % TWO_64) % TWO_64 <= s.capacity
  {
  }

  /** The accesses that pass; address 0 is the null pointer. Besides the ranges inside
      the capacity they are those whose end wraps to an address up to its end. */
  predicate Passes(s: State, address: nat, size: nat) {
    || address == 0
    || (s.base <= address && address + size <= s.base + s.capacity)
    || (s.base <= address && TWO_64 <= address + size <= TWO_64 + s.base + s.capacity)
  }

  predicate InArena(s: State, address: int) {
    s.base <= address < s.base + s.capacity
  }

  /** Of the accesses at an address other than null that do not wrap, exactly those pass
      all of whose bytes are in the arena; empty ones pass up to its end. */
  lemma AccessExactly(s: State, address: nat, size: nat)
    requires Sized(s) && 0 < address && address + size < TWO_64
    ensures size > 0 ==>
              (Passes(s, address, size)
               <==> forall at :: address <= at < address + size ==> InArena(s, at))
    ensures size == 0 ==> (Passes(s, address, size) <==> s.base <= address <= s.base + s.capacity)
  {
    if size > 0 && forall at :: address <= at < address + size ==> InArena(s, at) {
      var last := address + size - 1;
      assert InArena(s, address) && InArena(s, last);
    }
  }

  /** Every access inside a live block passes the check. */
  lemma BlocksAccessible(s: State, k: nat, i: nat, n: nat)
    requires Placed(s) && k < |s.blocks| && i + n <= s.blocks[k].size
    ensures Passes(s, s.base + s.blocks[k].offset + i, n)
  {
    Disjoint(s, k, k);
  }
}
