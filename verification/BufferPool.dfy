/** The per-CPU buffer pool (`src/buffer.rs`). */
module BufferPools {

  const BUFFER_SIZE := 4096
  const POOL_SIZE := 100

  type Byte = b: int | 0 <= b < 256

  /** A vector: its whole memory, of which the first `len` bytes are visible, and which vector it is. */
  datatype Vec = Vec(id: nat, mem: seq<Byte>, len: nat) {
    predicate Valid() { len <= |mem| }

    function Bytes(): (r: seq<Byte>)
      requires Valid()
    {
      mem[..len]
    }
  }

  function Zeros(n: nat): (r: seq<Byte>)
    ensures |r| == n && forall i :: 0 <= i < n ==> r[i] == 0
  {
    seq(n, _ => 0)
  }

  function Zeroed(id: nat, n: nat): (v: Vec) {
    Vec(id, Zeros(n), n)
  }

  /** A vector that holds just `data`, outside the pool: `from_slice`, and with zeros `new_zeroed`. */
  function Made(id: nat, data: seq<Byte>): (v: Vec)
    ensures v.Valid() && v.Bytes() == data && |v.mem| == |data|
  {
    Vec(id, data, |data|)
  }

  /** A vector moved to a block of `cap` bytes, of which only its visible bytes are written. */
  function Moved(v: Vec, cap: nat, junk: nat -> Byte): (r: Vec)
    requires v.Valid() && v.len <= cap
    ensures r.Valid() && |r.mem| == cap && r.Bytes() == v.Bytes() && r.id == v.id
  {
    v.(mem := v.mem[..v.len] + seq(cap - v.len, i requires 0 <= i => junk(i)))
  }

  function ReserveExact(v: Vec, additional: nat, junk: nat -> Byte): (r: Vec)
    requires v.Valid()
    ensures r.Valid() && r.Bytes() == v.Bytes() && r.id == v.id && r.len == v.len
  {
    if additional <= |v.mem| - v.len then v else Moved(v, v.len + additional, junk)
  }

  /** `resize(n, 0)`; a block that is too small grows to `room` bytes or, if that is less, to `n`. */
  function Resized(v: Vec, n: nat, room: nat, junk: nat -> Byte): (r: Vec)
    requires v.Valid()
    ensures r.Valid() && r.len == n && r.id == v.id
    ensures n <= |v.mem| ==> |r.mem| == |v.mem|
    ensures r.Bytes() == if n <= v.len then v.Bytes()[..n] else v.Bytes() + Zeros(n - v.len)
  {
    if n <= v.len then v.(len := n)
    else
      var w := if n <= |v.mem| then v else Moved(v, if n <= room then room else n, junk);
      var r := w.(mem := w.mem[..w.len] + Zeros(n - w.len) + w.mem[n..], len := n);
      assert r.Bytes() == v.Bytes() + Zeros(n - v.len);
      r
  }

  function Emptied(v: Vec, junk: nat -> Byte): (r: Vec)
    requires v.Valid()
    ensures r.Valid() && r.len == 0 && r.id == v.id
  {
    ReserveExact(v.(len := 0), if |v.mem| <= BUFFER_SIZE then BUFFER_SIZE - |v.mem| else 0, junk)
  }

  /** Writing through the mutable slice. */
  function Filled(s: seq<Byte>, at: nat, data: seq<Byte>): (r: seq<Byte>)
    requires at + |data| <= |s|
    ensures |r| == |s|
    ensures forall i :: 0 <= i < |s| ==> r[i] == if at <= i < at + |data| then data[i - at] else s[i]
  {
    s[..at] + data + s[at + |data|..]
  }

  // ----- The pool -----

  ghost predicate Pooled(pool: seq<Vec>) {
    |pool| <= POOL_SIZE && forall i :: 0 <= i < |pool| ==> pool[i].len == 0 && |pool[i].mem| == BUFFER_SIZE
  }

  predicate Taken(pool: seq<Vec>, n: nat) {
    0 < n <= BUFFER_SIZE && pool != []
  }

  /** The vector `get(n)` returns, if `id` is the next vector to be created. */
  function Got(pool: seq<Vec>, n: nat, id: nat, junk: nat -> Byte): (v: Vec) {
    if Taken(pool, n) && pool[0].Valid() && |pool[0].mem| >= n then Resized(pool[0], n, n, junk) else Zeroed(id, n)
  }

  function AfterGet(pool: seq<Vec>, n: nat): (r: seq<Vec>) {
    if Taken(pool, n) then pool[1..] else pool
  }

  function AfterRecycle(pool: seq<Vec>, v: Vec, junk: nat -> Byte): (r: seq<Vec>)
    requires v.Valid()
  {
    var e := Emptied(v, junk);
    if |e.mem| == BUFFER_SIZE && |pool| < POOL_SIZE then pool + [e] else pool
  }

  class BufferPool {
    var pool: seq<Vec>
    var created: nat

    constructor ()
      ensures pool == [] && created == 0
    {
      pool, created := [], 0;
    }

    method New(n: nat) returns (v: Vec)
      modifies this`created
      ensures v == Zeroed(old(created), n) && created == old(created) + 1
    {
      v := Zeroed(created, n);
      created := created + 1;
    }

    method FromSlice(data: seq<Byte>) returns (v: Vec)
      modifies this`created
      ensures v == Made(old(created), data) && created == old(created) + 1
    {
      v := Made(created, data);
      created := created + 1;
    }

    /** The length is `n` and every byte is zero, whatever the pool held; a vector is created only
        if none is taken from the pool. */
    method Get(n: nat, junk: nat -> Byte) returns (v: Vec)
      requires Pooled(pool)
      modifies this
      ensures Pooled(pool) && pool == AfterGet(old(pool), n)
      ensures v == Got(old(pool), n, old(created), junk)
      ensures v.Valid() && v.Bytes() == Zeros(n)
      ensures created == if Taken(old(pool), n) then old(created) else old(created) + 1
    {
      if n == 0 || n > BUFFER_SIZE {
        v := New(n);
        return;
      }
      if pool != [] {
        var buffer := pool[0];
        pool := pool[1..];
        if |buffer.mem| >= n {
          v := Resized(buffer, n, n, junk);
          return;
        }
      }
      v := New(n);
    }

    method Recycle(v: Vec, junk: nat -> Byte)
      requires Pooled(pool) && v.Valid()
      modifies this`pool
      ensures Pooled(pool) && pool == AfterRecycle(old(pool), v, junk)
      ensures (pool != old(pool)) == ((|v.mem| == 0 || |v.mem| == 4096) && |old(pool)| < 100)
    {
      var e := v.(len := 0);
      e := ReserveExact(e, if |e.mem| <= BUFFER_SIZE then BUFFER_SIZE - |e.mem| else 0, junk);
      if |e.mem| == BUFFER_SIZE {
        if |pool| < POOL_SIZE {
          pool := pool + [e];
        }
      }
    }
  }
}

/** Every run of getting, using and recycling buffers. */
module BufferRuns {
  import opened BufferPools

  /** `Make` stands for `from_slice` and `new_zeroed`, `Fill` for writes through the mutable slice and by the
      kernel, `Release` for a drop. */
  datatype Op =
    | Get(n: nat, junk: nat -> Byte)
    | Make(bytes: seq<Byte>)
    | Fill(h: nat, at: nat, data: seq<Byte>)
    | SetLen(h: nat, k: nat)
    | Copy(h: nat, data: seq<Byte>, room: nat, junk: nat -> Byte)
    | Recycle(h: nat, junk: nat -> Byte)
    | Release(h: nat)

  /** `held` is the buffers checked out, numbered in the order they were got or made. */
  datatype Sys = Sys(pool: seq<Vec>, created: nat, held: map<nat, Vec>, gets: nat)

  const START := Sys([], 0, map[], 0)

  /** `set_len` beyond the capacity, and a write beyond the length, are outside Rust's semantics. */
  function Step(s: Sys, op: Op): (r: Sys)
    requires AllValid(s)
  {
    match op
    case Get(n, junk) =>
      Sys(AfterGet(s.pool, n), if Taken(s.pool, n) then s.created else s.created + 1,
          s.held[s.gets := Got(s.pool, n, s.created, junk)], s.gets + 1)
    case Make(bytes) =>
      s.(created := s.created + 1, held := s.held[s.gets := Made(s.created, bytes)], gets := s.gets + 1)
    case Fill(h, at, data) =>
      if h in s.held && at + |data| <= s.held[h].len
      then s.(held := s.held[h := s.held[h].(mem := BufferPools.Filled(s.held[h].mem, at, data))]) else s
    case SetLen(h, k) =>
      if h in s.held && k <= |s.held[h].mem| then s.(held := s.held[h := s.held[h].(len := k)]) else s
    case Copy(h, data, room, junk) =>
      if h in s.held
      then
        var v := Resized(s.held[h], |data|, room, junk);
        s.(held := s.held[h := v.(mem := BufferPools.Filled(v.mem, 0, data))])
      else s
    case Recycle(h, junk) =>
      if h in s.held
      then s.(pool := AfterRecycle(s.pool, s.held[h], junk), held := s.held - {h}) else s
    case Release(h) => s.(held := s.held - {h})
  }

  ghost predicate AllValid(s: Sys) {
    forall h :: h in s.held ==> s.held[h].Valid()
  }

  /** No vector is held twice, pooled twice, or both, and all of them were created. */
  ghost predicate Apart(s: Sys) {
    && (forall i, j :: 0 <= i < j < |s.pool| ==> s.pool[i].id != s.pool[j].id)
    && (forall g, h :: g in s.held && h in s.held && g != h ==> s.held[g].id != s.held[h].id)
    && (forall i, h :: 0 <= i < |s.pool| && h in s.held ==> s.pool[i].id != s.held[h].id)
  }

  ghost predicate Numbered(s: Sys) {
    && (forall i :: 0 <= i < |s.pool| ==> s.pool[i].id < s.created)
    && (forall h :: h in s.held ==> h < s.gets && s.held[h].id < s.created)
  }

  ghost predicate Inv(s: Sys) {
    AllValid(s) && Pooled(s.pool) && Apart(s) && Numbered(s)
  }

  /** What `get` returns: zeros, in the first pooled vector if one is taken, else in a new one. */
  lemma GotZeros(pool: seq<Vec>, n: nat, id: nat, junk: nat -> Byte)
    requires Pooled(pool)
    ensures var v := Got(pool, n, id, junk);
            && v.Valid() && v.Bytes() == Zeros(n)
            && v.id == if Taken(pool, n) then pool[0].id else id
  {
  }

  lemma GetKeepsApart(s: Sys, n: nat, junk: nat -> Byte)
    requires Inv(s)
    ensures Apart(Step(s, Get(n, junk)))
  {
    GotZeros(s.pool, n, s.created, junk);
  }

  lemma GetKeeps(s: Sys, n: nat, junk: nat -> Byte)
    requires Inv(s)
    ensures Inv(Step(s, Get(n, junk)))
  {
    GotZeros(s.pool, n, s.created, junk);
    GetKeepsApart(s, n, junk);
  }

  lemma MakeKeeps(s: Sys, bytes: seq<Byte>)
    requires Inv(s)
    ensures Inv(Step(s, Make(bytes)))
  {
  }

  lemma RecycleKeeps(s: Sys, h: nat, junk: nat -> Byte)
    requires Inv(s) && h in s.held
    ensures Inv(Step(s, Recycle(h, junk)))
  {
    assert Emptied(s.held[h], junk).id == s.held[h].id;
  }

  /** A held vector changed in place. */
  lemma UpdateKeeps(s: Sys, h: nat, v: Vec)
    requires Inv(s) && h in s.held && v.Valid() && v.id == s.held[h].id
    ensures Inv(s.(held := s.held[h := v]))
  {
  }

  lemma StepKeeps(s: Sys, op: Op)
    requires Inv(s)
    ensures Inv(Step(s, op))
  {
    match op {
      case Get(n, junk) => GetKeeps(s, n, junk);
      case Make(bytes) => MakeKeeps(s, bytes);
      case Recycle(h, junk) => if h in s.held { RecycleKeeps(s, h, junk); }
      case Release(h) =>
      case Fill(h, _, _) => if h in s.held { UpdateKeeps(s, h, Step(s, op).held[h]); }
      case SetLen(h, _) => if h in s.held { UpdateKeeps(s, h, Step(s, op).held[h]); }
      case Copy(h, _, _, _) => if h in s.held { UpdateKeeps(s, h, Step(s, op).held[h]); }
    }
  }

  /** Runs end at the last operation. */
  ghost function Run(ops: seq<Op>): (s: Sys)
    ensures Inv(s)
  {
    if ops == [] then START
    else
      var s := Run(ops[..|ops| - 1]);
      StepKeeps(s, ops[|ops| - 1]);
      Step(s, ops[|ops| - 1])
  }

  /** In every reachable state a vector taken from the pool is large enough: the branch of `get` that
      drops one is dead, and so `get` creates a vector exactly if the pool is empty or has none of
      that size to give. */
  lemma NeverTooSmall(ops: seq<Op>, n: nat, junk: nat -> Byte)
    ensures var s := Run(ops);
            && (Taken(s.pool, n) ==> s.pool[0].Valid() && |s.pool[0].mem| >= n)
            && (Got(s.pool, n, s.created, junk).id == s.created <==> !Taken(s.pool, n))
  {
    GotZeros(Run(ops).pool, n, Run(ops).created, junk);
  }

  /** `recycle` keeps a vector exactly if it has no memory yet or is of the pool's size, and there is
      room: a vector with less memory is never brought to the pool's size. */
  lemma RecycledIff(ops: seq<Op>, h: nat, junk: nat -> Byte)
    requires h in Run(ops).held
    ensures var (s, r) := (Run(ops), Step(Run(ops), Recycle(h, junk)));
            && (|r.pool| == |s.pool| + 1 <==> |s.held[h].mem| in {0, 4096} && |s.pool| < 100)
            && (|r.pool| != |s.pool| + 1 ==> r.pool == s.pool)
  {
    EmptiedSize(Run(ops).held[h], junk);
  }

  /** Clearing brings a vector to the pool's size exactly if it has no memory yet, or is of that size. */
  lemma EmptiedSize(v: Vec, junk: nat -> Byte)
    requires v.Valid()
    ensures |Emptied(v, junk).mem| == BUFFER_SIZE <==> |v.mem| in {0, BUFFER_SIZE}
  {
  }

  // ----- Pooling looks like allocating -----

  /** The reference: every `get` allocates, and only the visible bytes exist. */
  datatype Plain = Plain(held: map<nat, seq<Byte>>, gets: nat)

  function PlainStep(p: Plain, op: Op): (r: Plain) {
    match op
    case Get(n, _) => Plain(p.held[p.gets := Zeros(n)], p.gets + 1)
    case Make(bytes) => Plain(p.held[p.gets := bytes], p.gets + 1)
    case Fill(h, at, data) =>
      if h in p.held && at + |data| <= |p.held[h]|
      then p.(held := p.held[h := BufferPools.Filled(p.held[h], at, data)]) else p
    case SetLen(h, k) => if h in p.held && k <= |p.held[h]| then p.(held := p.held[h := p.held[h][..k]]) else p
    case Copy(h, data, _, _) => if h in p.held then p.(held := p.held[h := data]) else p
    case Recycle(h, _) => p.(held := p.held - {h})
    case Release(h) => p.(held := p.held - {h})
  }

  function PlainRun(ops: seq<Op>): (p: Plain) {
    if ops == [] then Plain(map[], 0) else PlainStep(PlainRun(ops[..|ops| - 1]), ops[|ops| - 1])
  }

  ghost function Visible(s: Sys): (p: Plain)
    requires AllValid(s)
  {
    Plain(map h | h in s.held :: s.held[h].Bytes(), s.gets)
  }

  /** A `set_len` beyond the length, but within the capacity, as its documentation allows. */
  ghost predicate Lengthens(s: Sys, op: Op) {
    op.SetLen? && op.h in s.held && s.held[op.h].len < op.k <= |s.held[op.h].mem|
  }

  lemma FilledBytes(v: Vec, at: nat, data: seq<Byte>)
    requires v.Valid() && at + |data| <= v.len
    ensures v.(mem := BufferPools.Filled(v.mem, at, data)).Bytes() == BufferPools.Filled(v.Bytes(), at, data)
  {
  }

  lemma UpdateAgrees(s: Sys, h: nat, v: Vec)
    requires AllValid(s) && h in s.held && v.Valid()
    ensures AllValid(s.(held := s.held[h := v]))
    ensures Visible(s.(held := s.held[h := v])) == Visible(s).(held := Visible(s).held[h := v.Bytes()])
  {
    assert Visible(s.(held := s.held[h := v])).held == Visible(s).held[h := v.Bytes()];
  }

  lemma GetAgrees(s: Sys, n: nat, junk: nat -> Byte)
    requires Inv(s)
    ensures AllValid(Step(s, Get(n, junk))) && Visible(Step(s, Get(n, junk))) == PlainStep(Visible(s), Get(n, junk))
  {
    GotZeros(s.pool, n, s.created, junk);
    assert Visible(Step(s, Get(n, junk))).held == Visible(s).held[s.gets := Zeros(n)];
  }

  lemma MakeAgrees(s: Sys, bytes: seq<Byte>)
    requires Inv(s)
    ensures AllValid(Step(s, Make(bytes))) && Visible(Step(s, Make(bytes))) == PlainStep(Visible(s), Make(bytes))
  {
    assert Visible(Step(s, Make(bytes))).held == Visible(s).held[s.gets := bytes];
  }

  lemma CopyAgrees(s: Sys, h: nat, data: seq<Byte>, room: nat, junk: nat -> Byte)
    requires AllValid(s) && h in s.held
    ensures var op := Copy(h, data, room, junk);
            AllValid(Step(s, op)) && Visible(Step(s, op)) == PlainStep(Visible(s), op)
  {
    var v := Resized(s.held[h], |data|, room, junk);
    FilledBytes(v, 0, data);
    assert BufferPools.Filled(v.Bytes(), 0, data) == data;
    UpdateAgrees(s, h, v.(mem := BufferPools.Filled(v.mem, 0, data)));
  }

  lemma DropAgrees(s: Sys, h: nat, pool: seq<Vec>)
    requires AllValid(s)
    ensures AllValid(s.(held := s.held - {h}, pool := pool))
    ensures Visible(s.(held := s.held - {h}, pool := pool)) == Visible(s).(held := Visible(s).held - {h})
  {
    assert Visible(s.(held := s.held - {h})).held == Visible(s).held - {h};
  }

  lemma SetLenAgreesIff(s: Sys, h: nat, k: nat)
    requires Inv(s)
    ensures AllValid(Step(s, SetLen(h, k)))
    ensures Visible(Step(s, SetLen(h, k))) == PlainStep(Visible(s), SetLen(h, k)) <==> !Lengthens(s, SetLen(h, k))
  {
    if h in s.held && k <= |s.held[h].mem| {
      UpdateAgrees(s, h, s.held[h].(len := k));
      var shown := Visible(s).held[h := s.held[h].mem[..k]];
      if k <= s.held[h].len {
        assert s.held[h].mem[..k] == s.held[h].Bytes()[..k];
      } else {
        assert |shown[h]| != |Visible(s).held[h]|;
      }
    }
  }

  /** One operation shows the same bytes as in the reference if and only if it does not lengthen. */
  lemma StepAgreesIff(s: Sys, op: Op)
    requires Inv(s)
    ensures AllValid(Step(s, op))
    ensures Visible(Step(s, op)) == PlainStep(Visible(s), op) <==> !Lengthens(s, op)
  {
    match op {
      case Get(n, junk) => GetAgrees(s, n, junk);
      case Make(bytes) => MakeAgrees(s, bytes);
      case Fill(h, at, data) =>
        if h in s.held && at + |data| <= s.held[h].len {
          FilledBytes(s.held[h], at, data);
          UpdateAgrees(s, h, s.held[h].(mem := BufferPools.Filled(s.held[h].mem, at, data)));
        }
      case SetLen(h, k) => SetLenAgreesIff(s, h, k);
      case Copy(h, data, room, junk) => if h in s.held { CopyAgrees(s, h, data, room, junk); }
      case Recycle(h, junk) => DropAgrees(s, h, Step(s, op).pool);
      case Release(h) => DropAgrees(s, h, s.pool);
    }
  }

  /** After every operation of a run the bytes in every buffer are those of the reference. */
  ghost predicate LooksAllocated(ops: seq<Op>) {
    forall i :: 0 <= i <= |ops| ==> Visible(Run(ops[..i])) == PlainRun(ops[..i])
  }

  ghost predicate NeverLengthens(ops: seq<Op>) {
    forall i :: 0 <= i < |ops| ==> !Lengthens(Run(ops[..i]), ops[i])
  }

  lemma RunSnoc(ops: seq<Op>, i: nat)
    requires i < |ops|
    ensures Run(ops[..i + 1]) == Step(Run(ops[..i]), ops[i])
    ensures PlainRun(ops[..i + 1]) == PlainStep(PlainRun(ops[..i]), ops[i])
  {
    assert ops[..i + 1][..i] == ops[..i];
  }

  lemma {:induction false} AgreesUpTo(ops: seq<Op>, i: nat)
    requires i <= |ops| && NeverLengthens(ops)
    ensures Visible(Run(ops[..i])) == PlainRun(ops[..i])
  {
    if i == 0 {
      assert ops[..0] == [] && Visible(START).held == map[];
    } else {
      AgreesUpTo(ops, i - 1);
      RunSnoc(ops, i - 1);
      StepAgreesIff(Run(ops[..i - 1]), ops[i - 1]);
    }
  }

  /** Over every run, all buffers show at every moment the bytes of a program that allocates afresh each
      time, so that nothing of an earlier use shows, if and only if no `set_len` lengthens. */
  lemma RefinesAllocationIff(ops: seq<Op>)
    ensures LooksAllocated(ops) <==> NeverLengthens(ops)
  {
    if NeverLengthens(ops) {
      forall i | 0 <= i <= |ops| ensures Visible(Run(ops[..i])) == PlainRun(ops[..i]) {
        AgreesUpTo(ops, i);
      }
    } else {
      var i :| 0 <= i < |ops| && Lengthens(Run(ops[..i]), ops[i]);
      RunSnoc(ops, i);
      StepAgreesIff(Run(ops[..i]), ops[i]);
    }
  }

  /** What a completed read does to its buffer. */
  function AfterRead(v: Vec, data: seq<Byte>): (r: Vec)
    requires v.Valid() && |data| <= v.len
  {
    v.(mem := BufferPools.Filled(v.mem, 0, data), len := |data|)
  }

  /** A buffer is got with the requested length, the kernel writes `data` at its start and reports its
      length: that is within the capacity, does not lengthen, and the buffer shows what the kernel wrote. */
  lemma ReadShowsData(ops: seq<Op>, n: nat, data: seq<Byte>, junk: nat -> Byte)
    requires |data| <= n
    ensures var v := Got(Run(ops).pool, n, Run(ops).created, junk);
            && v.Valid() && |data| <= v.len == n <= |v.mem|
            && AfterRead(v, data).Valid() && AfterRead(v, data).Bytes() == data
  {
    GotZeros(Run(ops).pool, n, Run(ops).created, junk);
  }

  /** Lengthening shows old bytes, even within the capacity: a vector that is recycled and got again
      with length `n` shows behind its zeros, after `set_len(k)`, what its last user left there. */
  lemma LengtheningShowsOldBytes(v: Vec, n: nat, k: nat, id: nat, junk: nat -> Byte)
    requires v.Valid() && |v.mem| == BUFFER_SIZE && 0 < n < k <= BUFFER_SIZE
    ensures var pool := AfterRecycle([], v, junk);
            var w := Got(pool, n, id, junk).(len := k);
            w.Valid() && w.Bytes() == Zeros(n) + v.mem[n..k]
  {
    var e := Emptied(v, junk);
    assert e.mem == v.mem;
    var w := Resized(e, n, n, junk);
    assert w.mem == Zeros(n) + v.mem[n..];
    assert [] + [e] == [e];
  }
}
