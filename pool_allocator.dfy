/** The kernel's page-chunk allocator (kernel/src/paging/allocator.rs): fixed-size
    chunks of CHUNK_SIZE bytes, handed out from an intrusive free list (the first
    word of every free chunk holds the address of the next one, 0 ends the list)
    or, when the list is empty, by bumping a cursor through the arena. */
module PoolAllocator {

  const CHUNK_SIZE: nat := 4096
  const ARENA_START: nat := 0x400000

  datatype AllocResult = Block(addr: nat) | OutOfMemory

  /** The allocator's three pointers (0 is null) and, for each address that holds one,
      the first machine word of memory: where the free list keeps its links. */
  datatype PoolState = PoolState(freed: nat, current: nat, end: nat, memory: map<nat, nat>)

  /** `alloc`: pop the head of the free list, or else bump the cursor by one chunk;
      the cursor stays advanced when that overruns the arena (the source panics). */
  function Allocate(s: PoolState): (r: (PoolState, AllocResult))
    requires s.freed != 0 ==> s.freed in s.memory
    ensures r.0.current >= s.current && r.0.end == s.end && r.0.memory == s.memory
    ensures s.freed != 0 ==> r.0.current == s.current && r.1 == Block(s.freed)
    ensures s.freed == 0 ==> r.0.current == s.current + CHUNK_SIZE && r.0.freed == 0
  {
    if s.freed != 0 then
      (s.(freed := s.memory[s.freed]), Block(s.freed))
    else
      var current := s.current + CHUNK_SIZE;
      (s.(current := current), if current > s.end then OutOfMemory else Block(s.current))
  }

  /** `free`: link the chunk at `p` in front of the free list. */
  function Release(s: PoolState, p: nat): (r: PoolState)
  {
    s.(memory := s.memory[p := s.freed], freed := p)
  }

  /** The link stored in the `i`-th free chunk: the next chunk, or null after the last. */
  function Successor(list: seq<nat>, i: nat): nat
  {
    if i + 1 < |list| then list[i + 1] else 0
  }

  /** `list` is the chain of free chunks that starts at `head` and whose links are in `memory`. */
  ghost predicate FreeChain(head: nat, list: seq<nat>, memory: map<nat, nat>)
  {
    (if |list| == 0 then head == 0 else head == list[0]) &&
    forall i :: 0 <= i < |list| ==>
      list[i] != 0 && list[i] in memory && memory[list[i]] == Successor(list, i)
  }

  /** The allocator's invariant, relative to the chunks on the free list and the chunks
      handed out and not yet freed: the two are disjoint, none is null, and all lie
      wholly below the bump cursor. */
  ghost predicate Inv(s: PoolState, list: seq<nat>, outstanding: set<nat>)
  {
    FreeChain(s.freed, list, s.memory) &&
    s.current > 0 &&
    (forall i :: 0 <= i < |list| ==> list[i] !in outstanding && list[i] + CHUNK_SIZE <= s.current) &&
    (forall a :: a in outstanding ==> 0 < a && a + CHUNK_SIZE <= s.current)
  }

  /** The state the kernel starts from: empty free list, cursor at the arena start. */
  lemma InitialInv(end: nat)
    ensures Inv(PoolState(0, ARENA_START, end, map[]), [], {})
  {
  }

  /** Allocation keeps the invariant and never returns a chunk that is still handed out:
      it returns the head of the free list when there is one, and the old cursor otherwise. */
  lemma {:induction false} AllocKeepsInv(s: PoolState, list: seq<nat>, outstanding: set<nat>)
    requires Inv(s, list, outstanding)
    ensures s.freed != 0 ==> s.freed in s.memory
    ensures var (t, r) := Allocate(s);
      && (r.Block? ==> r.addr !in outstanding && r.addr != 0)
      && (|list| > 0 ==> r == Block(list[0]) && Inv(t, list[1..], outstanding + {list[0]}))
      && (|list| == 0 && r.Block? ==> r.addr == s.current && Inv(t, [], outstanding + {s.current}))
      && (r.OutOfMemory? ==> |list| == 0 && Inv(t, list, outstanding))
  {
    if |list| > 0 {
      var (t, r) := Allocate(s);
      var rest := list[1..];
      assert t.freed == (if |rest| == 0 then 0 else rest[0]) by {
        assert s.memory[list[0]] == Successor(list, 0);
      }
      forall i | 0 <= i < |rest|
        ensures rest[i] != 0 && rest[i] in t.memory
        ensures t.memory[rest[i]] == Successor(rest, i)
      {
        assert rest[i] == list[i + 1];
        assert Successor(rest, i) == Successor(list, i + 1);
      }
      forall i | 0 <= i < |rest|
        ensures rest[i] !in outstanding + {list[0]}
      {
        assert rest[i] == list[i + 1];
        assert rest[i] != list[0] by { FreeChainDistinct(s.freed, list, s.memory, 0, i + 1); }
      }
    }
  }

  /** The chunks on a free chain are pairwise distinct: the last one's link is 0, every
      earlier one's link is the next, non-null chunk. */
  lemma {:induction false} FreeChainDistinct(head: nat, list: seq<nat>, memory: map<nat, nat>, i: nat, j: nat)
    requires FreeChain(head, list, memory)
    requires i < j < |list|
    ensures list[i] != list[j]
    decreases |list| - j
  {
    if j + 1 < |list| {
      FreeChainDistinct(head, list, memory, i + 1, j + 1);
      assert memory[list[i]] == Successor(list, i) == list[i + 1];
    }
  }

  /** Freeing a chunk that is handed out keeps the invariant, with the chunk now at the
      head of the free list. */
  lemma {:induction false} FreeKeepsInv(s: PoolState, list: seq<nat>, outstanding: set<nat>, p: nat)
    requires Inv(s, list, outstanding)
    requires p in outstanding
    ensures Inv(Release(s, p), [p] + list, outstanding - {p})
  {
    var t := Release(s, p);
    var l := [p] + list;
    forall i | 0 <= i < |l|
      ensures l[i] != 0 && l[i] in t.memory
      ensures t.memory[l[i]] == Successor(l, i)
    {
      if i > 0 {
        assert l[i] == list[i - 1];
        assert list[i - 1] != p;
        assert Successor(l, i) == Successor(list, i - 1);
      }
    }
  }

  /** The free list is last in, first out: allocating right after freeing `p` returns `p`
      and restores the free-list head. */
  lemma FreeThenAlloc(s: PoolState, p: nat)
    requires p != 0
    ensures Allocate(Release(s, p)) == (s.(memory := s.memory[p := s.freed]), Block(p))
  {
  }

  /** With an empty free list, blocks come from the bump cursor: successive blocks are
      CHUNK_SIZE apart, and from ARENA_START every block is chunk-aligned. */
  lemma BumpBlocksAligned(s: PoolState)
    requires s.freed == 0 && s.current % CHUNK_SIZE == 0
    ensures var (t, r) := Allocate(s);
      t.current == s.current + CHUNK_SIZE && t.current % CHUNK_SIZE == 0 &&
      (r.Block? ==> r.addr % CHUNK_SIZE == 0 && r.addr + CHUNK_SIZE <= s.end)
  {
  }

  /** The allocator object; its interior mutability is a plain class here. */
  class Pool {
    var freed: nat
    var current: nat
    var end: nat
    var memory: map<nat, nat>
    ghost var freeList: seq<nat>
    ghost var outstanding: set<nat>

    function State(): PoolState
      reads this
    {
      PoolState(freed, current, end, memory)
    }

    ghost predicate Valid()
      reads this
    {
      Inv(State(), freeList, outstanding)
    }

    /** `PoolAllocator::new(null, ARENA_START, RAM_SIZE)`, the one instance the kernel builds. */
    constructor (ramSize: nat)
      ensures Valid() && freeList == [] && outstanding == {}
      ensures State() == PoolState(0, ARENA_START, ramSize, map[])
    {
      freed, current, end, memory := 0, ARENA_START, ramSize, map[];
      freeList, outstanding := [], {};
    }

    method Alloc() returns (r: AllocResult)
      requires Valid()
      modifies this
      ensures Valid()
      ensures (State(), r) == Allocate(old(State()))
      ensures r.Block? ==> r.addr !in old(outstanding) && outstanding == old(outstanding) + {r.addr}
      ensures r.OutOfMemory? ==> outstanding == old(outstanding)
    {
      AllocKeepsInv(State(), freeList, outstanding);
      if freed != 0 {
        r := Block(freed);
        freed := memory[freed];
        outstanding := outstanding + {freeList[0]};
        freeList := freeList[1..];
      } else {
        var prev := current;
        current := current + CHUNK_SIZE;
        if current > end {
          r := OutOfMemory;
        } else {
          r := Block(prev);
          outstanding := outstanding + {prev};
        }
      }
    }

    method Free(p: nat)
      requires Valid() && p in outstanding
      modifies this
      ensures Valid()
      ensures State() == Release(old(State()), p)
      ensures freeList == [p] + old(freeList) && outstanding == old(outstanding) - {p}
    {
      FreeKeepsInv(State(), freeList, outstanding, p);
      memory := memory[p := freed];
      freed := p;
      freeList := [p] + freeList;
      outstanding := outstanding - {p};
    }
  }
}
