/** CPU exception handlers. Each handler lives in a trampoline block from a shared pool; the handlers of one
    exception vector form a chain through links and chain-to addresses inside the blocks. */
module Trampolines {
  import opened Basics

  const POOL_SIZE: nat := 256
  const EXCEPTIONS: nat := 0x1f
  // One vector for each exception in protected mode, then one for each in real mode.
  const VECTORS: nat := 2 * EXCEPTIONS

  /** Where control goes: a handler of the host's, or the code of a trampoline. */
  datatype Vector = Host(id: nat) | Code(block: Block)

  /** A block is free, handles an exception of vector `key`, or is taken for something else: a one-shot redirection
      out of an exception, or a handler still under construction. */
  datatype Role = Free | Taken | Handler(key: nat)

  class Block {
    // While free.
    var nextFree: Block?
    // While an exception trampoline.
    var key: nat
    var chainTo: Vector
    var next: Block?
    var prev: Block?
    // What the block is in use as.
    ghost var role: Role

    constructor ()
      ensures role == Free
    {
      nextFree, next, prev := null, null, null;
      key, chainTo := 0, Host(0);
      role := Free;
    }
  }

  /** Where the handler at position `k` passes on what it does not handle. */
  function Onward(list: seq<Block>, k: nat, original: Vector): Vector
    requires k <= |list|
  {
    if k > 0 then Code(list[k - 1]) else original
  }

  function Reverse<T>(s: seq<T>): (r: seq<T>)
    ensures |r| == |s| && forall i | 0 <= i < |s| :: r[i] == s[|s| - 1 - i]
  {
    if s == [] then [] else Reverse(s[1..]) + [s[0]]
  }

  /** Leaving one out of a sequence of distinct items leaves exactly the others. */
  lemma WithoutExactly<T>(s: seq<T>, k: nat)
    requires k < |s| && Distinct(s)
    ensures Distinct(Without(s, k))
    ensures forall x :: x in Without(s, k) <==> x in s && x != s[k]
  {
    WithoutKeepsOthers(s, k);
  }

  function Items<T>(s: seq<T>): set<T>
  {
    set x | x in s
  }

  lemma {:induction false} DistinctItems<T>(s: seq<T>)
    requires Distinct(s)
    ensures |Items(s)| == |s|
  {
    if s != [] {
      DistinctItems(s[1..]);
      assert Items(s) == {s[0]} + Items(s[1..]);
    }
  }

  lemma SizesAddUp<T>(a: seq<T>, b: seq<T>, c: set<T>, all: seq<T>)
    requires Distinct(a) && Distinct(b) && Distinct(all)
    requires forall x :: x in all <==> x in a || x in b || x in c
    requires (forall x | x in a :: x !in b && x !in c) && forall x | x in b :: x !in c
    ensures |a| + |b| + |c| == |all|
  {
    DistinctItems(a);
    DistinctItems(b);
    DistinctItems(all);
    assert Items(all) == Items(a) + Items(b) + c;
  }

  ghost predicate Distinct<T>(s: seq<T>)
  {
    forall i, j | 0 <= i < j < |s| :: s[i] != s[j]
  }

  /** The links of a list of handlers, oldest first, with both its ends. */
  ghost predicate Chained(list: seq<Block>, last: Block?, vector: Vector, original: Vector)
    reads list`next, list`prev, list`chainTo
  {
    && last == Preceding(list, |list|, null) && vector == Onward(list, |list|, original)
    && (forall k: nat {:trigger list[k].next} | k < |list| :: list[k].next == Following(list, k, null))
    && (forall k: nat {:trigger list[k].prev} | k < |list| :: list[k].prev == Preceding(list, k, null))
    && (forall k: nat {:trigger list[k].chainTo} | k < |list| :: list[k].chainTo == Onward(list, k, original))
  }

  /** A handler linked behind the last one can be counted in. */
  lemma WithLinks(list: seq<Block>, b: Block, original: Vector)
    requires b !in list && b.next == null && b.prev == Preceding(list, |list|, null)
    requires b.chainTo == Onward(list, |list|, original)
    requires forall k: nat {:trigger list[k].next} | k < |list| ::
               list[k].next == if k + 1 == |list| then b else Following(list, k, null)
    requires forall k: nat {:trigger list[k].prev} | k < |list| :: list[k].prev == Preceding(list, k, null)
    requires forall k: nat {:trigger list[k].chainTo} | k < |list| :: list[k].chainTo == Onward(list, k, original)
    ensures Chained(list + [b], b, Code(b), original)
  {
    assert forall k: nat | k < |list| :: (list + [b])[k] == list[k];
  }

  /** A handler passed by on all sides can be left out. */
  lemma WithoutLinks(list: seq<Block>, k: nat, last: Block?, vector: Vector, original: Vector)
    requires k < |list|
    requires last == if k + 1 == |list| then Preceding(list, k, null) else Preceding(list, |list|, null)
    requires vector == if k + 1 == |list| then Onward(list, k, original) else Onward(list, |list|, original)
    requires forall o: nat {:trigger list[o].next} | o < |list| ::
               list[o].next == if o + 1 == k then Following(list, k, null) else Following(list, o, null)
    requires forall o: nat {:trigger list[o].prev} | o < |list| ::
               list[o].prev == if o == k + 1 then Preceding(list, k, null) else Preceding(list, o, null)
    requires forall o: nat {:trigger list[o].chainTo} | o < |list| ::
               list[o].chainTo == if o == k + 1 then Onward(list, k, original) else Onward(list, o, original)
    ensures Chained(Without(list, k), last, vector, original)
  {
  }

  /** The handlers of one vector. */
  class Chain {
    const key: nat
    var vector: Vector
    var last: Block?
    ghost const original: Vector
    // Oldest first.
    ghost var list: seq<Block>

    constructor (key: nat, vector: Vector)
      requires vector.Host?
      ensures Valid() && list == [] && this.key == key && original == vector == this.vector
    {
      this.key, this.vector, original := key, vector, vector;
      last, list := null, [];
    }

    ghost predicate Valid()
      reads this, list`next, list`prev, list`chainTo, list`key
    {
      && original.Host? && Chained(list, last, vector, original)
      && Distinct(list) && forall k | 0 <= k < |list| :: list[k].key == key
    }

    /** All is well but for where the vector leads. */
    ghost predicate IntactButForVector()
      reads this, list`next, list`prev, list`chainTo, list`key
    {
      && original.Host? && Chained(list, last, Onward(list, |list|, original), original)
      && Distinct(list) && forall k | 0 <= k < |list| :: list[k].key == key
    }

    /** Hook the vector: the block passes on to whatever was hooked before. */
    method Hook(b: Block)
      modifies `vector, b`chainTo
      ensures b.chainTo == old(vector) && vector == Code(b)
    {
      b.chainTo := vector;
      vector := Code(b);
    }

    /** Link a block behind the last one. */
    method Link(b: Block)
      requires Distinct(list) && b !in list && last == Preceding(list, |list|, null)
      requires forall k: nat {:trigger list[k].next} | k < |list| :: list[k].next == Following(list, k, null)
      modifies `last, b`key, b`next, b`prev, list`next
      ensures b.key == key && b.next == null && b.prev == old(last) && last == b
      ensures forall k: nat {:trigger list[k].next} | k < |list| ::
                list[k].next == if k + 1 == |list| then b else Following(list, k, null)
    {
      b.key, b.next := key, null;
      b.prev := last;
      if b.prev != null {
        b.prev.next := b;
      }
      last := b;
    }

    /** Install a handler in front of all others. */
    method Install(b: Block)
      requires Valid() && b !in list
      modifies `vector, `last, `list, b`chainTo, b`key, b`next, b`prev, list`next
      ensures Valid() && list == old(list) + [b]
    {
      Hook(b);
      Link(b);
      WithLinks(list, b, original);
      list := list + [b];
    }

    /** Let the neighbours of a handler pass it by. */
    method Bypass(b: Block, ghost k: nat)
      requires Chained(list, last, vector, original) && Distinct(list) && k < |list| && list[k] == b
      modifies `vector, `last, list`next, list`prev, list`chainTo
      ensures last == (if k + 1 == |list| then Preceding(list, k, null) else Preceding(list, |list|, null))
      ensures vector == if k + 1 == |list| then Onward(list, k, original) else Onward(list, |list|, original)
      ensures forall o: nat {:trigger list[o].next} | o < |list| ::
                list[o].next == if o + 1 == k then Following(list, k, null) else Following(list, o, null)
      ensures forall o: nat {:trigger list[o].prev} | o < |list| ::
                list[o].prev == if o == k + 1 then Preceding(list, k, null) else Preceding(list, o, null)
      ensures forall o: nat {:trigger list[o].chainTo} | o < |list| ::
                list[o].chainTo == if o == k + 1 then Onward(list, k, original) else Onward(list, o, original)
    {
      if b.prev != null {
        b.prev.next := b.next;
      }
      if b.next != null {
        b.next.prev := b.prev;
        b.next.chainTo := b.chainTo;
      } else {
        last := b.prev;
        vector := b.chainTo;
      }
    }

    /** Remove a handler from anywhere in the chain. */
    method Uninstall(b: Block, ghost k: nat)
      requires Valid() && k < |list| && list[k] == b
      modifies `vector, `last, `list, list`next, list`prev, list`chainTo
      ensures Valid() && list == Without(old(list), k)
    {
      Bypass(b, k);
      WithoutLinks(list, k, last, vector, original);
      list := Without(list, k);
    }

    /** Follow the vector as an exception that nobody handles would. */
    method Chase() returns (visited: seq<Block>, end: Vector)
      requires Valid()
      ensures visited == Reverse(list) && end == original
    {
      visited, end := [], vector;
      ghost var k := |list|;
      while end.Code?
        invariant 0 <= k <= |list| && end == Onward(list, k, original)
        invariant visited == Reverse(list[k..])
        decreases k
      {
        k := k - 1;
        assert list[k..] == [list[k]] + list[k + 1..];
        visited := visited + [end.block];
        end := end.block.chainTo;
      }
      assert k == 0 && list[k..] == list;
    }
  }

  /** The blocks not in use, linked through themselves. */
  ghost predicate FreeList(free: seq<Block>, first: Block?)
    reads free`nextFree
  {
    && Distinct(free)
    && first == (if free == [] then null else free[0])
    && forall k: nat {:trigger free[k].nextFree} | k < |free| :: free[k].nextFree == Following(free, k, null)
  }

  class Pool {
    const blocks: seq<Block>
    var freeList: Block?
    ghost var free: seq<Block>

    ghost predicate Valid()
      reads `freeList, `free, free`nextFree
    {
      FreeList(free, freeList)
    }

    /** Every block links to the next one. */
    constructor (blocks: seq<Block>)
      requires |blocks| == POOL_SIZE && Distinct(blocks)
      modifies blocks`nextFree
      ensures Valid() && this.blocks == free == blocks
    {
      this.blocks, free := blocks, blocks;
      freeList := blocks[0];
      new;
      for i := 0 to POOL_SIZE
        modifies blocks`nextFree
        invariant forall k: nat {:trigger blocks[k].nextFree} | k < i ::
                    blocks[k].nextFree == Following(blocks, k, null)
      {
        blocks[i].nextFree := if i + 1 < POOL_SIZE then blocks[i + 1] else null;
      }
    }

    /** Null when the pool is exhausted. */
    method Allocate() returns (b: Block?)
      requires Valid()
      modifies `freeList, `free
      ensures Valid()
      ensures old(free) == [] ==> b == null && free == []
      ensures old(free) != [] ==> b == old(free)[0] && free == old(free)[1..]
    {
      b := freeList;
      if b != null {
        freeList := b.nextFree;
        free := free[1..];
      }
    }

    method Deallocate(b: Block)
      requires Valid() && b !in free
      modifies `freeList, `free, b`nextFree
      ensures Valid() && free == [b] + old(free)
    {
      b.nextFree := freeList;
      freeList := b;
      free := [b] + free;
      assert forall k: nat | 0 < k < |free| :: free[k] == old(free)[k - 1];
    }
  }

  /** What the environment answers during construction of a handler: the host refuses to tell or to change the
      vector, or there is no memory for the handler function. */
  datatype Answer = Granted | Refused | NoMemory

  datatype Outcome = Installed | PoolExhausted | HostRefused | OutOfMemory

  method NewBlocks() returns (blocks: seq<Block>)
    ensures |blocks| == POOL_SIZE && Distinct(blocks)
    ensures fresh(blocks) && forall b | b in blocks :: b.role == Free
  {
    blocks := [];
    for i := 0 to POOL_SIZE
      invariant |blocks| == i && Distinct(blocks)
      invariant fresh(blocks) && forall b | b in blocks :: b.role == Free
    {
      var b := new Block();
      blocks := blocks + [b];
    }
  }

  method NewChains(vectors: seq<Vector>) returns (chains: seq<Chain>)
    requires |vectors| == VECTORS && forall v | v in vectors :: v.Host?
    ensures |chains| == VECTORS
    ensures forall k | 0 <= k < VECTORS :: fresh(chains[k]) && chains[k].Valid() && chains[k].list == []
    ensures forall k | 0 <= k < VECTORS :: chains[k].key == k && chains[k].vector == vectors[k]
  {
    chains := [];
    for i := 0 to VECTORS
      invariant |chains| == i
      invariant forall k | 0 <= k < i :: fresh(chains[k]) && chains[k].Valid() && chains[k].list == []
      invariant forall k | 0 <= k < i :: chains[k].key == k && chains[k].vector == vectors[k]
    {
      var chain := new Chain(i, vectors[i]);
      chains := chains + [chain];
    }
  }

  /** All exception handlers. */
  class Exceptions {
    const pool: Pool
    const chains: seq<Chain>

    constructor (vectors: seq<Vector>)
      requires |vectors| == VECTORS && forall v | v in vectors :: v.Host?
      ensures Valid() && pool.free == pool.blocks && |pool.blocks| == POOL_SIZE
      ensures forall i | 0 <= i < VECTORS :: chains[i].list == [] && chains[i].vector == vectors[i]
    {
      var blocks := NewBlocks();
      pool := new Pool(blocks);
      var all := NewChains(vectors);
      chains := all;
    }

    ghost predicate Shape()
    {
      |chains| == VECTORS && forall i | 0 <= i < VECTORS :: chains[i].key == i
    }

    ghost predicate Own(i: nat, list: seq<Block>)
      reads pool.blocks`role
    {
      forall k | 0 <= k < |list| :: list[k] in pool.blocks && list[k].role == Handler(i)
    }

    /** Free blocks are exactly those on the free list. */
    ghost predicate FreeFiled()
      reads pool`free, pool.blocks`role
    {
      && (forall b | b in pool.free :: b in pool.blocks && b.role == Free)
      && (forall b | b in pool.blocks && b.role == Free :: b in pool.free)
    }

    ghost predicate HandlersAreListed()
      requires Shape()
      reads pool.blocks`role, chains`list
    {
      forall b | b in pool.blocks && b.role.Handler? :: b.role.key < VECTORS && b in chains[b.role.key].list
    }

    /** Every block is where its role says: handlers are exactly those on the chain of their vector. */
    ghost predicate Filed()
      requires Shape()
      reads pool`free, pool.blocks`role, chains`list
    {
      FreeFiled() && HandlersAreListed() && forall i | 0 <= i < VECTORS :: Own(i, chains[i].list)
    }

    ghost predicate PoolFits()
      reads pool`free, pool`freeList, pool.free`nextFree, pool.blocks`role, chains`list
    {
      Shape() && Filed() && pool.Valid()
    }

    ghost predicate ChainsFit()
      requires Shape() && Filed()
      reads pool`free, chains, pool.blocks
    {
      forall i | 0 <= i < VECTORS ::
        chains[i].Valid()
    }

    ghost predicate Valid()
      reads pool, pool.free`nextFree, pool.blocks, chains
    {
      PoolFits() && ChainsFit()
    }

    method Allocate() returns (b: Block?)
      requires PoolFits()
      modifies pool`freeList, pool`free, pool.blocks`role
      ensures PoolFits()
      ensures old(pool.free) == [] ==> b == null && pool.free == []
      ensures old(pool.free) != [] ==> b == old(pool.free)[0] && pool.free == old(pool.free)[1..] && b.role == Taken
      ensures forall o | o in pool.blocks && o != b :: o.role == old(o.role)
    {
      assert pool.free != [] ==> pool.free[0] in pool.blocks;
      b := pool.Allocate();
      if b != null {
        b.role := Taken;
      }
    }

    method Deallocate(b: Block)
      requires PoolFits() && b in pool.blocks && b.role == Taken
      modifies pool`freeList, pool`free, b`nextFree, b`role
      ensures PoolFits() && pool.free == [b] + old(pool.free)
    {
      pool.Deallocate(b);
      b.role := Free;
    }

    /** Others' chains do not depend on a block that is not theirs. */
    lemma OthersStay(i: nat, j: nat)
      requires Shape() && Filed() && i < VECTORS && j < VECTORS && i != j
      ensures chains[j] != chains[i]
      ensures forall b | b in chains[j].list :: b.role == Handler(j) && b !in chains[i].list
    {
    }

    /** Put a new handler on its chain. */
    method Enlist(i: nat, b: Block)
      requires Valid() && i < VECTORS && b in pool.blocks && b.role == Taken
      modifies chains[i], b`chainTo, b`key, b`next, b`prev, chains[i].list`next
      ensures chains[i].list == old(chains[i].list) + [b]
      ensures forall j | 0 <= j < VECTORS && j != i :: chains[j].list == old(chains[j].list)
      ensures forall j | 0 <= j < VECTORS :: chains[j].Valid()
    {
      forall j | 0 <= j < VECTORS && j != i
        ensures chains[j] != chains[i] && forall o | o in chains[j].list :: o != b && o !in chains[i].list
      {
        OthersStay(i, j);
      }
      chains[i].Install(b);
      assert forall j | 0 <= j < VECTORS && j != i :: chains[j].list == old(chains[j].list) && chains[j].Valid();
    }

    /** Count a block that has been put on a chain as a handler. */
    method Claim(ghost i: nat, b: Block, ghost list: seq<Block>)
      requires Shape() && i < VECTORS && chains[i].list == list + [b] && Own(i, list)
      requires FreeFiled() && b in pool.blocks && b.role == Taken
      requires forall j | 0 <= j < VECTORS && j != i :: Own(j, chains[j].list) && b !in chains[j].list
      requires HandlersAreListed()
      modifies b`role
      ensures Filed() && b.role == Handler(i)
    {
      b.role := Handler(i);
      assert forall j | 0 <= j < VECTORS && j != i :: Own(j, chains[j].list);
      assert b in chains[i].list && Own(i, chains[i].list);
    }

    /** Install a handler in a block taken for it. */
    method Add(i: nat, b: Block)
      requires Valid() && i < VECTORS && b in pool.blocks && b.role == Taken
      modifies chains[i], b`chainTo, b`key, b`next, b`prev, b`role, chains[i].list`next
      ensures Valid() && b.role == Handler(i) && chains[i].list == old(chains[i].list) + [b]
      ensures forall j | 0 <= j < VECTORS && j != i :: chains[j].list == old(chains[j].list)
    {
      ghost var list := chains[i].list;
      Enlist(i, b);
      assert forall o | o in list :: o in chains[i].list;
      Claim(i, b, list);
    }

    /** The vector leads to the block, then construction fails: the block goes back to the pool. */
    method Abandon(i: nat, b: Block)
      requires Valid() && i < VECTORS && b in pool.blocks && b.role == Taken
      modifies chains[i], b`chainTo, b`nextFree, b`role, pool`freeList, pool`free
      ensures PoolFits() && pool.free == [b] + old(pool.free)
      ensures chains[i].vector == Code(b) && !chains[i].Valid() && chains[i].IntactButForVector()
      ensures forall j | 0 <= j < VECTORS :: chains[j].list == old(chains[j].list)
      ensures forall j | 0 <= j < VECTORS && j != i :: chains[j].Valid()
    {
      chains[i].Hook(b);
      Deallocate(b);
      assert b.role == Free && b !in chains[i].list;
    }

    /** Construct a handler for a vector. When memory for the handler function runs out, the vector is left leading
        into the block that has gone back to the pool. */
    method Create(i: nat, answer: Answer) returns (outcome: Outcome, b: Block?)
      requires Valid() && i < VECTORS
      modifies pool`freeList, pool`free, pool.blocks, chains[i]
      ensures outcome == if old(pool.free) == [] then PoolExhausted
                         else match answer
                           case Granted => Installed
                           case Refused => HostRefused
                           case NoMemory => OutOfMemory
      ensures Valid() <==> !(answer == NoMemory && old(pool.free) != [])
      ensures if outcome == Installed
                then && b == old(pool.free)[0] && pool.free == old(pool.free)[1..]
                     && chains[i].list == old(chains[i].list) + [b]
                else pool.free == old(pool.free) && chains[i].list == old(chains[i].list)
      ensures outcome == OutOfMemory ==> chains[i].vector == Code(pool.free[0]) && chains[i].IntactButForVector()
      ensures PoolFits() && forall j | 0 <= j < VECTORS && j != i :: chains[j].Valid()
      ensures outcome == PoolExhausted || outcome == HostRefused ==> chains[i].vector == old(chains[i].vector)
      ensures forall j | 0 <= j < VECTORS && j != i :: chains[j].list == old(chains[j].list)
    {
      ghost var free := pool.free;
      b := Allocate();
      if b == null {
        outcome := PoolExhausted;
      } else {
        assert free == [b] + pool.free;
        match answer
        case Granted =>
          Add(i, b);
          outcome := Installed;
        case Refused =>
          Deallocate(b);
          outcome := HostRefused;
        case NoMemory =>
          Abandon(i, b);
          outcome := OutOfMemory;
      }
    }

    /** Take a handler off its chain, wherever in it it is. */
    method Delist(b: Block, ghost i: nat, ghost k: nat)
      requires Valid() && i < VECTORS && k < |chains[i].list| && chains[i].list[k] == b
      modifies chains[i], chains[i].list`next, chains[i].list`prev, chains[i].list`chainTo
      ensures chains[i].list == Without(old(chains[i].list), k)
      ensures forall j | 0 <= j < VECTORS && j != i :: chains[j].list == old(chains[j].list)
      ensures forall j | 0 <= j < VECTORS :: chains[j].Valid()
    {
      forall j | 0 <= j < VECTORS && j != i
        ensures chains[j] != chains[i] && forall o | o in chains[j].list :: o !in chains[i].list
      {
        OthersStay(i, j);
      }
      chains[b.key].Uninstall(b, k);
      assert forall j | 0 <= j < VECTORS && j != i :: chains[j].list == old(chains[j].list) && chains[j].Valid();
    }

    /** Count a block that has been taken off a chain as no handler any more. */
    method Disown(ghost i: nat, b: Block, ghost k: nat, ghost list: seq<Block>)
      requires Shape() && i < VECTORS && FreeFiled() && b in pool.blocks && b.role == Handler(i)
      requires k < |list| && list[k] == b && Distinct(list) && chains[i].list == Without(list, k) && Own(i, list)
      requires forall j | 0 <= j < VECTORS && j != i :: Own(j, chains[j].list)
      requires forall o | o in pool.blocks && o.role.Handler? ::
                 o.role.key < VECTORS && o in if o.role.key == i then list else chains[o.role.key].list
      modifies b`role
      ensures Filed() && b.role == Taken
    {
      WithoutExactly(list, k);
      b.role := Taken;
      assert forall j | 0 <= j < VECTORS && j != i :: Own(j, chains[j].list);
      assert Own(i, chains[i].list);
    }

    /** Destruct a handler. */
    method Drop(b: Block, ghost i: nat, ghost k: nat)
      requires Valid() && i < VECTORS && k < |chains[i].list| && chains[i].list[k] == b
      modifies chains[i], pool.blocks`next, pool.blocks`prev, pool.blocks`chainTo, b`role
      ensures Valid() && b.role == Taken && chains[i].list == Without(old(chains[i].list), k)
      ensures forall j | 0 <= j < VECTORS && j != i :: chains[j].list == old(chains[j].list)
    {
      ghost var list := chains[i].list;
      Delist(b, i, k);
      Disown(i, b, k, list);
    }

    /** Destroy a handler, in any order: the chain closes around it and its block becomes free. */
    method Destroy(b: Block)
      requires Valid() && b in pool.blocks && b.role.Handler?
      modifies pool`freeList, pool`free, pool.blocks, chains[b.role.key]
      ensures Valid() && b.role == Free && pool.free == [b] + old(pool.free)
      ensures exists k: nat | k < |old(chains[b.role.key].list)| ::
                && old(chains[b.role.key].list)[k] == b
                && chains[old(b.role.key)].list == Without(old(chains[b.role.key].list), k)
      ensures forall j | 0 <= j < VECTORS && j != old(b.role.key) :: chains[j].list == old(chains[j].list)
      ensures var c := chains[old(b.role.key)]; c.list == [] ==> c.vector == c.original
    {
      ghost var i := b.role.key;
      ghost var list := chains[i].list;
      ghost var k: nat :| k < |list| && list[k] == b;
      Drop(b, i, k);
      Deallocate(b);
      assert list[k] == b && chains[i].list == Without(list, k);
    }

    /** All handlers of the first `n` vectors. */
    ghost function Handlers(n: nat): seq<Block>
      requires n <= |chains|
      reads chains`list
    {
      if n == 0 then [] else Handlers(n - 1) + chains[n - 1].list
    }

    lemma {:induction false} HandlersAreDistinct(n: nat)
      requires Valid() && n <= VECTORS
      ensures Distinct(Handlers(n))
      ensures forall b :: b in Handlers(n) <==> b in pool.blocks && b.role.Handler? && b.role.key < n
    {
      if n > 0 {
        HandlersAreDistinct(n - 1);
        assert Own(n - 1, chains[n - 1].list) && chains[n - 1].Valid();
      }
    }

    /** Nothing is lost: free blocks, handlers, and blocks taken for something else together make up the pool. */
    lemma BlocksAreConserved(taken: set<Block>)
      requires Valid() && Distinct(pool.blocks)
      requires forall b :: b in taken <==> b in pool.blocks && b.role == Taken
      ensures |pool.free| + |Handlers(VECTORS)| + |taken| == |pool.blocks|
    {
      HandlersAreDistinct(VECTORS);
      SizesAddUp(pool.free, Handlers(VECTORS), taken, pool.blocks);
    }
  }
}
