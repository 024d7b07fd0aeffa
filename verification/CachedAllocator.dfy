/** The caching allocator: free blocks are kept on one list per size, and the word in front of a block holds its size
    while the block is live and the link to the next free block while it is on a list. */
module CachedAllocators {
  import opened Bytes

  /** Only blocks smaller than this are cached. */
  const SLOTS: nat := 0x1000

  const WORD: nat := 8

  /** Addresses of blocks as malloc returns them; the caller gets the address behind the header word. */
  type Address = nat

  const NULL: Address := 0

  /** The blocks one finds from `head` by following header words until a null link. */
  predicate Chain(words: map<Address, nat>, head: Address, list: seq<Address>)
    decreases |list|
  {
    if list == [] then head == NULL
    else head != NULL && list[0] == head && head in words && Chain(words, words[head], list[1..])
  }

  lemma {:induction false} ChainSuffix(words: map<Address, nat>, head: Address, list: seq<Address>, i: nat)
    requires Chain(words, head, list) && i < |list|
    ensures Chain(words, list[i], list[i..])
    decreases i
  {
    if i > 0 {
      ChainSuffix(words, words[head], list[1..], i - 1);
      assert list[1..][i - 1..] == list[i..];
    }
  }

  lemma {:induction false} ChainDetermined(words: map<Address, nat>, head: Address, l1: seq<Address>, l2: seq<Address>)
    requires Chain(words, head, l1) && Chain(words, head, l2)
    ensures l1 == l2
    decreases |l1|
  {
    if l1 != [] && l2 != [] {
      ChainDetermined(words, words[head], l1[1..], l2[1..]);
      assert l1 == [head] + l1[1..] && l2 == [head] + l2[1..];
    }
  }

  /** A list that ends is acyclic: no block is on it twice. */
  lemma ChainAcyclic(words: map<Address, nat>, head: Address, list: seq<Address>, i: nat, j: nat)
    requires Chain(words, head, list) && i < j < |list|
    ensures list[i] != list[j]
  {
    if list[i] == list[j] {
      ChainSuffix(words, head, list, i);
      ChainSuffix(words, head, list, j);
      ChainDetermined(words, list[i], list[i..], list[j..]);
    }
  }

  /** Writing a header word that is not on the list leaves the list alone. */
  lemma {:induction false} ChainFrame(words: map<Address, nat>, words': map<Address, nat>, head: Address,
      list: seq<Address>)
    requires Chain(words, head, list)
    requires forall a :: a in list ==> a in words' && (a in words ==> words'[a] == words[a])
    ensures Chain(words', head, list)
    decreases |list|
  {
    if list != [] {
      assert head in list;
      ChainFrame(words, words', words[head], list[1..]);
    }
  }

  /** The lists as values. */
  predicate ListsOk(words: map<Address, nat>, sizes: map<Address, nat>, heads: seq<Address>, lists: seq<seq<Address>>) {
    && |heads| == |lists|
    && forall c :: 0 <= c < |heads| ==> Chain(words, heads[c], lists[c]) && SizedBy(sizes, lists[c], c)
  }

  predicate SizedBy(sizes: map<Address, nat>, list: seq<Address>, c: nat) {
    forall a :: a in list ==> a in sizes && sizes[a] == c
  }

  predicate Listed(sizes: map<Address, nat>, lists: seq<seq<Address>>, a: Address)
    requires a in sizes
  {
    sizes[a] < |lists| && a in lists[sizes[a]]
  }

  /** Every block that malloc gave out and that was not given back is live, on its list, or in the hands of a call in
      progress, and only one of these. */
  predicate Owned(sizes: map<Address, nat>, lists: seq<seq<Address>>, live: set<Address>, transit: set<Address>) {
    && live <= sizes.Keys && transit <= sizes.Keys && live !! transit
    && NULL !in sizes
    && forall a :: a in sizes ==> (Listed(sizes, lists, a) <==> a !in live && a !in transit)
  }

  /** A live block's header word holds its size. */
  predicate HeadersOk(words: map<Address, nat>, sizes: map<Address, nat>, live: set<Address>)
    requires live <= sizes.Keys && sizes.Keys == words.Keys
  {
    forall a :: a in live ==> words[a] == WORD + sizes[a] < SIZE_MOD
  }

  predicate CountsOk(lists: seq<seq<Address>>, counts: seq<nat>, maxs: seq<nat>) {
    && |counts| == |maxs| == |lists|
    && forall c :: 0 <= c < |lists| ==> |lists[c]| == counts[c] <= maxs[c]
  }

  /** The bytes that live blocks take, headers included. */
  ghost function Used(sizes: map<Address, nat>, live: set<Address>): nat
    requires live <= sizes.Keys
    decreases |live|
  {
    if live == {} then 0
    else
      var a :| a in live;
      WORD + sizes[a] + Used(sizes, live - {a})
  }

  lemma {:induction false} UsedRemove(sizes: map<Address, nat>, live: set<Address>, a: Address)
    requires live <= sizes.Keys && a in live
    ensures Used(sizes, live) == WORD + sizes[a] + Used(sizes, live - {a})
    decreases |live|
  {
    var b :| b in live && Used(sizes, live) == WORD + sizes[b] + Used(sizes, live - {b});
    if a != b {
      UsedRemove(sizes, live - {b}, a);
      UsedRemove(sizes, live - {a}, b);
      assert live - {a} - {b} == live - {b} - {a};
    }
  }

  lemma {:induction false} UsedFrame(sizes: map<Address, nat>, sizes': map<Address, nat>, live: set<Address>)
    requires live <= sizes.Keys && live <= sizes'.Keys && forall a :: a in live ==> sizes'[a] == sizes[a]
    ensures Used(sizes', live) == Used(sizes, live)
    decreases |live|
  {
    if live != {} {
      var a :| a in live;
      UsedRemove(sizes, live, a);
      UsedRemove(sizes', live, a);
      UsedFrame(sizes, sizes', live - {a});
    }
  }

  /** The allocator as a value. `sizes` has every block that malloc gave out and that was not given back, with the
      number of bytes behind its header word; `transit` has the blocks in the hands of calls in progress. */
  datatype Heap = Heap(
    words: map<Address, nat>,
    sizes: map<Address, nat>,
    heads: seq<Address>,
    lists: seq<seq<Address>>,
    counts: seq<nat>,
    maxs: seq<nat>,
    live: set<Address>,
    transit: set<Address>)

  predicate Ok(h: Heap) {
    && |h.heads| == |h.lists| == SLOTS
    && h.words.Keys == h.sizes.Keys
    && ListsOk(h.words, h.sizes, h.heads, h.lists)
    && CountsOk(h.lists, h.counts, h.maxs)
    && Owned(h.sizes, h.lists, h.live, h.transit)
    && HeadersOk(h.words, h.sizes, h.live)
  }

  /** malloc gives out a block that is not out. */
  function Malloced(h: Heap, b: Address, size: nat, word: nat): Heap {
    h.(words := h.words[b := word], sizes := h.sizes[b := size], transit := h.transit + {b})
  }

  lemma MallocedOk(h: Heap, b: Address, size: nat, word: nat)
    requires Ok(h) && b != NULL && b !in h.sizes
    ensures Ok(Malloced(h, b, size, word))
  {
    var g := Malloced(h, b, size, word);
    forall c | 0 <= c < SLOTS
      ensures Chain(g.words, g.heads[c], g.lists[c]) && SizedBy(g.sizes, g.lists[c], c)
    {
      assert SizedBy(h.sizes, h.lists[c], c);
      ChainFrame(h.words, g.words, h.heads[c], h.lists[c]);
    }
    assert size < SLOTS ==> SizedBy(h.sizes, h.lists[size], size);
  }

  /** A block goes back to free. */
  function Released(h: Heap, b: Address): Heap {
    h.(words := h.words - {b}, sizes := h.sizes - {b}, transit := h.transit - {b})
  }

  lemma ReleasedOk(h: Heap, b: Address)
    requires Ok(h) && b in h.transit
    ensures Ok(Released(h, b))
  {
    var g := Released(h, b);
    forall c | 0 <= c < SLOTS
      ensures Chain(g.words, g.heads[c], g.lists[c]) && SizedBy(g.sizes, g.lists[c], c)
    {
      assert SizedBy(h.sizes, h.lists[c], c);
      ChainFrame(h.words, g.words, h.heads[c], h.lists[c]);
    }
  }

  /** The first block of the list of class `c` is taken off it. */
  function Popped(h: Heap, c: nat): Heap
    requires Ok(h) && c < SLOTS && h.lists[c] != [] && h.counts[c] > 0
  {
    h.(heads := h.heads[c := h.words[h.heads[c]]], lists := h.lists[c := h.lists[c][1..]],
       counts := h.counts[c := h.counts[c] - 1], transit := h.transit + {h.heads[c]})
  }

  lemma PoppedOk(h: Heap, c: nat)
    requires Ok(h) && c < SLOTS && h.lists[c] != []
    ensures h.counts[c] > 0 && Ok(Popped(h, c))
    ensures h.heads[c] in h.sizes && h.sizes[h.heads[c]] == c && h.heads[c] !in h.live && h.heads[c] !in h.transit
  {
    var b, list := h.heads[c], h.lists[c];
    assert SizedBy(h.sizes, list, c) && b in list;
    var g := Popped(h, c);
    forall i | 0 < i < |list|
      ensures list[i] != b
    {
      ChainAcyclic(h.words, h.heads[c], list, 0, i);
    }
    forall a | a in g.sizes
      ensures Listed(g.sizes, g.lists, a) <==> a !in g.live && a !in g.transit
    {
      assert Listed(h.sizes, h.lists, a) <==> a !in h.live && a !in h.transit;
    }
  }

  /** A block becomes the first one on the list of class `c`. */
  function Pushed(h: Heap, b: Address, c: nat): Heap
    requires Ok(h) && c < SLOTS
  {
    h.(words := h.words[b := h.heads[c]], heads := h.heads[c := b], lists := h.lists[c := [b] + h.lists[c]],
       counts := h.counts[c := h.counts[c] + 1], transit := h.transit - {b})
  }

  lemma PushedOk(h: Heap, b: Address, c: nat)
    requires Ok(h) && c < SLOTS && b in h.transit && h.sizes[b] == c && h.counts[c] < h.maxs[c]
    ensures Ok(Pushed(h, b, c))
  {
    var g := Pushed(h, b, c);
    forall d | 0 <= d < SLOTS
      ensures Chain(g.words, g.heads[d], g.lists[d]) && SizedBy(g.sizes, g.lists[d], d)
    {
      var list := h.lists[d];
      assert SizedBy(h.sizes, list, d);
      ChainFrame(h.words, g.words, h.heads[d], list);
      assert ([b] + list)[1..] == list;
    }
    forall a | a in g.sizes
      ensures Listed(g.sizes, g.lists, a) <==> a !in g.live && a !in g.transit
    {
      assert Listed(h.sizes, h.lists, a) <==> a !in h.live && a !in h.transit;
    }
  }

  /** A block gets its header and belongs to the caller. */
  function Committed(h: Heap, b: Address): Heap
    requires b in h.sizes
  {
    h.(words := h.words[b := WORD + h.sizes[b]], live := h.live + {b}, transit := h.transit - {b})
  }

  lemma CommittedOk(h: Heap, b: Address)
    requires Ok(h) && b in h.transit && WORD + h.sizes[b] < SIZE_MOD
    ensures Ok(Committed(h, b)) && Used(h.sizes, h.live + {b}) == Used(h.sizes, h.live) + WORD + h.sizes[b]
  {
    var g := Committed(h, b);
    forall c | 0 <= c < SLOTS
      ensures Chain(g.words, g.heads[c], g.lists[c])
    {
      assert SizedBy(h.sizes, h.lists[c], c);
      ChainFrame(h.words, g.words, h.heads[c], h.lists[c]);
    }
    UsedRemove(h.sizes, h.live + {b}, b);
    assert h.live + {b} - {b} == h.live;
  }

  /** The caller gives a block back. */
  function Returned(h: Heap, b: Address): Heap {
    h.(live := h.live - {b}, transit := h.transit + {b})
  }

  lemma ReturnedOk(h: Heap, b: Address)
    requires Ok(h) && b in h.live
    ensures Ok(Returned(h, b)) && h.words[b] == WORD + h.sizes[b] < SIZE_MOD
    ensures Used(h.sizes, h.live) == Used(h.sizes, h.live - {b}) + WORD + h.sizes[b]
  {
    UsedRemove(h.sizes, h.live, b);
  }

  /** The atomic actions of concurrent calls: an action under the lock, a call of malloc or free, or the header write
      and the counter updates of the thread that holds the block. */
  datatype Action =
    | Malloc(b: Address, size: nat, word: nat)
    | Release(b: Address)
    | Pop(c: nat)
    | Push(b: Address, c: nat)
    | Commit(b: Address)
    | Return(b: Address)
    | Raise(c: nat, n: nat)

  predicate Can(h: Heap, a: Action)
    requires Ok(h)
  {
    match a
    case Malloc(b, size, _) => b != NULL && b !in h.sizes && WORD + size < SIZE_MOD
    case Release(b) => b in h.transit
    case Pop(c) => c < SLOTS && h.lists[c] != []
    case Push(b, c) => c < SLOTS && b in h.transit && h.sizes[b] == c && h.counts[c] < h.maxs[c]
    case Commit(b) => b in h.transit && WORD + h.sizes[b] < SIZE_MOD
    case Return(b) => b in h.live
    case Raise(c, n) => c < SLOTS && n > h.maxs[c]
  }

  function Do(h: Heap, a: Action): Heap
    requires Ok(h) && Can(h, a)
  {
    match a
    case Malloc(b, size, word) => Malloced(h, b, size, word)
    case Release(b) => Released(h, b)
    case Pop(c) =>
      PoppedOk(h, c);
      Popped(h, c)
    case Push(b, c) => Pushed(h, b, c)
    case Commit(b) => Committed(h, b)
    case Return(b) => Returned(h, b)
    case Raise(c, n) => h.(maxs := h.maxs[c := n])
  }

  lemma DoOk(h: Heap, a: Action)
    requires Ok(h) && Can(h, a)
    ensures Ok(Do(h, a))
  {
    hide ListsOk, Owned, HeadersOk;
    match a
    case Malloc(b, size, word) => MallocedOk(h, b, size, word);
    case Release(b) => ReleasedOk(h, b);
    case Pop(c) => PoppedOk(h, c);
    case Push(b, c) => PushedOk(h, b, c);
    case Commit(b) => CommittedOk(h, b);
    case Return(b) => ReturnedOk(h, b);
    case Raise(c, n) =>
  }

  predicate Reaches(h: Heap, actions: seq<Action>, g: Heap)
    requires Ok(h)
    decreases |actions|
  {
    if actions == [] then g == h
    else
      Can(h, actions[0]) && (DoOk(h, actions[0]); Reaches(Do(h, actions[0]), actions[1..], g))
  }

  function Initial(): Heap {
    Heap(map[], map[], seq(SLOTS, _ => NULL), seq(SLOTS, _ => []), seq(SLOTS, _ => 0), seq(SLOTS, _ => 0), {}, {})
  }

  lemma InitialOk()
    ensures Ok(Initial())
  {
  }

  lemma {:induction false} ReachesOk(h: Heap, actions: seq<Action>, g: Heap)
    requires Ok(h) && Reaches(h, actions, g)
    ensures Ok(g)
    decreases |actions|
  {
    hide Ok, Can, Do;
    if actions != [] {
      DoOk(h, actions[0]);
      ReachesOk(Do(h, actions[0]), actions[1..], g);
    }
  }

  /** No block is in two places. */
  predicate Apart(h: Heap) {
    && (forall c, i, j :: 0 <= c < |h.lists| && 0 <= i < j < |h.lists[c]| ==> h.lists[c][i] != h.lists[c][j])
    && (forall c, a :: 0 <= c < |h.lists| && a in h.lists[c] ==> a !in h.live && a !in h.transit)
    && h.live !! h.transit
  }

  lemma OkApart(h: Heap)
    requires Ok(h)
    ensures Apart(h)
  {
    forall c, i, j | 0 <= c < |h.lists| && 0 <= i < j < |h.lists[c]|
      ensures h.lists[c][i] != h.lists[c][j]
    {
      ChainAcyclic(h.words, h.heads[c], h.lists[c], i, j);
    }
    forall c, a | 0 <= c < |h.lists| && a in h.lists[c]
      ensures a !in h.live && a !in h.transit
    {
      assert SizedBy(h.sizes, h.lists[c], c) && Listed(h.sizes, h.lists, a);
    }
  }

  /** In every interleaving of calls the lists are acyclic, as long as the counts say and never longer than allowed,
      hold blocks of their own size, and share no block with the live ones; and a block that is handed to a caller was
      not live. */
  lemma CacheRefinesMalloc(actions: seq<Action>, g: Heap)
    requires Reaches(Initial(), actions, g)
    ensures Ok(g) && Apart(g)
    ensures forall c, a :: 0 <= c < SLOTS && a in g.lists[c] ==> a in g.sizes && g.sizes[a] == c
    ensures forall b :: Can(g, Commit(b)) ==> b !in g.live && Do(g, Commit(b)).live == g.live + {b}
  {
    hide Reaches;
    ReachesOk(Initial(), actions, g);
    OkApart(g);
    forall c, a | 0 <= c < SLOTS && a in g.lists[c]
      ensures a in g.sizes && g.sizes[a] == c
    {
      assert SizedBy(g.sizes, g.lists[c], c);
    }
  }

  /** The usage data, `size_t` each. */
  datatype Usage = Usage(count: nat, size: nat)

  /** The counter updates of an action: those of __alloc come with its header write, those of __free with its read. */
  function Counted(u: Usage, h: Heap, a: Action): Usage
    requires Ok(h) && Can(h, a)
  {
    match a
    case Commit(b) => Usage((u.count + 1) % SIZE_MOD, (u.size + WORD + h.sizes[b]) % SIZE_MOD)
    case Return(b) =>
      InUse(h, b);
      Usage((u.count - 1) % SIZE_MOD, (u.size - h.words[b]) % SIZE_MOD)
    case _ => u
  }

  function CountedAll(u: Usage, h: Heap, actions: seq<Action>): Usage
    requires Ok(h)
    decreases |actions|
  {
    if actions == [] || !Can(h, actions[0]) then u
    else
      DoOk(h, actions[0]);
      CountedAll(Counted(u, h, actions[0]), Do(h, actions[0]), actions[1..])
  }

  /** The usage data tell how many blocks are live and how many bytes they take, modulo the word size. */
  ghost predicate Accounted(u: Usage, h: Heap)
    requires h.live <= h.sizes.Keys
  {
    u.count == |h.live| % SIZE_MOD && u.size == Used(h.sizes, h.live) % SIZE_MOD
  }

  lemma CommitAccounted(u: Usage, h: Heap, b: Address)
    requires Ok(h) && Can(h, Commit(b)) && Accounted(u, h)
    ensures Ok(Committed(h, b)) && Accounted(Counted(u, h, Commit(b)), Committed(h, b))
  {
    hide ListsOk, HeadersOk, CountsOk;
    CommittedOk(h, b);
    InTransit(h, b);
    hide Ok, Owned;
    ModAdd(|h.live|, 1);
    ModAdd(Used(h.sizes, h.live), WORD + h.sizes[b]);
    assert |h.live + {b}| == |h.live| + 1;
  }

  lemma ReturnAccounted(u: Usage, h: Heap, b: Address)
    requires Ok(h) && Can(h, Return(b)) && Accounted(u, h)
    ensures Ok(Returned(h, b)) && Accounted(Counted(u, h, Return(b)), Returned(h, b))
  {
    hide ListsOk, HeadersOk, CountsOk;
    ReturnedOk(h, b);
    ModSub(|h.live|, 1);
    ModSub(Used(h.sizes, h.live), WORD + h.sizes[b]);
    assert |h.live - {b}| == |h.live| - 1;
  }

  lemma DoAccounted(u: Usage, h: Heap, a: Action)
    requires Ok(h) && Can(h, a) && Accounted(u, h)
    ensures Ok(Do(h, a)) && Accounted(Counted(u, h, a), Do(h, a))
  {
    hide ListsOk, HeadersOk, CountsOk;
    DoOk(h, a);
    match a
    case Commit(b) => CommitAccounted(u, h, b);
    case Return(b) => ReturnAccounted(u, h, b);
    case Malloc(b, size, word) => UsedFrame(h.sizes, h.sizes[b := size], h.live);
    case Release(b) => UsedFrame(h.sizes, h.sizes - {b}, h.live);
    case _ =>
  }

  lemma {:induction false} RunAccounted(u: Usage, h: Heap, actions: seq<Action>, g: Heap)
    requires Ok(h) && Accounted(u, h) && Reaches(h, actions, g)
    ensures Ok(g) && Accounted(CountedAll(u, h, actions), g)
    decreases |actions|
  {
    hide Ok, Can, Do, Accounted, Counted;
    if actions != [] {
      DoOk(h, actions[0]);
      DoAccounted(u, h, actions[0]);
      RunAccounted(Counted(u, h, actions[0]), Do(h, actions[0]), actions[1..], g);
    }
  }

  /** In every interleaving of calls the usage data are those of the blocks in the hands of callers. */
  lemma UsageIsLive(actions: seq<Action>, g: Heap)
    requires Reaches(Initial(), actions, g)
    ensures Ok(g) && Accounted(CountedAll(Usage(0, 0), Initial(), actions), g)
  {
    hide Reaches, CountedAll;
    RunAccounted(Usage(0, 0), Initial(), actions, g);
  }

  /** A whole call of __alloc that is not cut short by an overflow: the heap behind it and the block, or null. `block`
      is what malloc answers if it is called, with `word` in its first bytes. */
  function Allocating(h: Heap, n: nat, block: Address, word: nat): (Heap, Address)
    requires Ok(h)
  {
    if n < SLOTS && h.lists[n] != [] then
      PoppedOk(h, n);
      (Committed(Popped(h, n), h.heads[n]), h.heads[n])
    else if block == NULL then (h, NULL)
    else (Committed(Malloced(h, block, n, word), block), block)
  }

  /** A whole call of __free on a live block. */
  function Freeing(h: Heap, b: Address): Heap
    requires Ok(h) && b in h.live
  {
    ReturnedOk(h, b);
    var g, c := Returned(h, b), h.sizes[b];
    if c < SLOTS && h.counts[c] < h.maxs[c] then Pushed(g, b, c) else Released(g, b)
  }

  /** What the blocks `keep` hold for their owners is unchanged. */
  predicate SameBlocks(h: Heap, g: Heap, keep: set<Address>) {
    forall a :: a in keep && a in h.sizes && a in h.words ==>
      a in g.sizes && a in g.words && g.sizes[a] == h.sizes[a] && g.words[a] == h.words[a]
  }

  /** To its callers the cache is malloc: a block that is not live becomes live with the size asked for, no live block
      changes, and the call fails only if malloc was asked and failed. */
  lemma AllocIsMalloc(h: Heap, n: nat, block: Address, word: nat)
    requires Ok(h) && WORD + n < SIZE_MOD && (block != NULL ==> block !in h.sizes)
    ensures var (g, b) := Allocating(h, n, block, word);
      && Ok(g) && g.transit == h.transit && SameBlocks(h, g, h.live)
      && (b == NULL ==> block == NULL && g == h)
      && (b != NULL ==> b !in h.live && g.live == h.live + {b} && b in g.sizes && g.sizes[b] == n)
      && (b != NULL ==> if b in h.sizes then g.sizes == h.sizes else b == block && g.sizes == h.sizes[b := n])
  {
    hide ListsOk, HeadersOk, CountsOk;
    if n < SLOTS && h.lists[n] != [] {
      PoppedOk(h, n);
      CommittedOk(Popped(h, n), h.heads[n]);
    } else if block != NULL {
      MallocedOk(h, block, n, word);
      CommittedOk(Malloced(h, block, n, word), block);
    }
  }

  /** To its callers the cache is free: the block is no longer live, no other live block changes, and the block is
      either on the list of its size or back with the system. */
  lemma FreeIsFree(h: Heap, b: Address)
    requires Ok(h) && b in h.live
    ensures var g := Freeing(h, b);
      && Ok(g) && g.transit == h.transit && g.live == h.live - {b} && SameBlocks(h, g, h.live - {b})
      && b in h.sizes && var c := h.sizes[b];
        if c < 0x1000 && h.counts[c] < h.maxs[c] then g.sizes == h.sizes && g.lists[c] == [b] + h.lists[c]
        else g.sizes == h.sizes - {b} && g.lists == h.lists
  {
    hide ListsOk, HeadersOk;
    ReturnedOk(h, b);
    var g, c := Returned(h, b), h.sizes[b];
    if c < SLOTS && h.counts[c] < h.maxs[c] {
      PushedOk(g, b, c);
    } else {
      ReleasedOk(g, b);
    }
  }

  /** A kept block is the next one handed out for its size, and the lists are then as before. */
  lemma FreeThenAlloc(h: Heap, b: Address, block: Address, word: nat)
    requires Ok(h) && b in h.live && b in h.sizes && h.sizes[b] < SLOTS && h.counts[h.sizes[b]] < h.maxs[h.sizes[b]]
    ensures Ok(Freeing(h, b)) && Allocating(Freeing(h, b), h.sizes[b], block, word) == (h, b)
  {
    hide ListsOk, Owned, HeadersOk;
    FreeIsFree(h, b);
    ReturnedOk(h, b);
    InUse(h, b);
    var c := h.sizes[b];
    PoppedOk(Freeing(h, b), c);
    Reversed(h, b, c);
  }

  lemma InUse(h: Heap, b: Address)
    requires Ok(h) && b in h.live
    ensures b in h.sizes && b in h.words && b !in h.transit && h.words[b] == WORD + h.sizes[b]
  {
  }

  lemma Reversed(h: Heap, b: Address, c: nat)
    requires c < |h.heads| == |h.lists| == |h.counts| && b in h.words && b in h.sizes && h.sizes[b] == c
    requires h.words[b] == WORD + c && b in h.live && b !in h.transit
    ensures h.words[b := h.heads[c]][b := WORD + c] == h.words
    ensures h.heads[c := b][c := h.heads[c]] == h.heads
    ensures h.lists[c := [b] + h.lists[c]][c := ([b] + h.lists[c])[1..]] == h.lists
    ensures h.counts[c := h.counts[c] + 1][c := h.counts[c]] == h.counts
    ensures h.live - {b} + {b} == h.live && h.transit + {b} - {b} + {b} - {b} == h.transit
  {
    assert ([b] + h.lists[c])[1..] == h.lists[c];
  }

  /** The number of blocks to keep of class `c` after a wish for `n`. */
  function Raised(maxs: seq<nat>, c: nat, n: nat): seq<nat> {
    if c < |maxs| && n > maxs[c] then maxs[c := n] else maxs
  }

  function RaisedAll(maxs: seq<nat>, wishes: seq<(nat, nat)>): (r: seq<nat>)
    ensures |r| == |maxs|
  {
    if wishes == [] then maxs
    else
      var last := wishes[|wishes| - 1];
      Raised(RaisedAll(maxs, wishes[..|wishes| - 1]), last.0, last.1)
  }

  predicate Wished(wishes: seq<(nat, nat)>, c: nat, n: nat) {
    exists i :: 0 <= i < |wishes| && wishes[i] == (c, n)
  }

  /** Of every class the most is kept that was ever wished for: the number is not lowered, each wish is met, and a
      number that changed is one of the wishes. */
  lemma {:induction false} RaisedIsLargest(maxs: seq<nat>, wishes: seq<(nat, nat)>, c: nat)
    requires c < |maxs|
    ensures maxs[c] <= RaisedAll(maxs, wishes)[c]
    ensures forall i :: 0 <= i < |wishes| && wishes[i].0 == c ==> wishes[i].1 <= RaisedAll(maxs, wishes)[c]
    ensures RaisedAll(maxs, wishes)[c] == maxs[c] || Wished(wishes, c, RaisedAll(maxs, wishes)[c])
    decreases |wishes|
  {
    if wishes != [] {
      var init, last := wishes[..|wishes| - 1], wishes[|wishes| - 1];
      RaisedIsLargest(maxs, init, c);
      RaisedOnce(RaisedAll(maxs, init), last, c);
      if Wished(init, c, RaisedAll(maxs, init)[c]) {
        WishedOn(init, wishes, c, RaisedAll(maxs, init)[c]);
      }
      assert forall i :: 0 <= i < |init| ==> init[i] == wishes[i];
      assert wishes[|wishes| - 1] == last;
    }
  }

  lemma RaisedOnce(maxs: seq<nat>, wish: (nat, nat), c: nat)
    requires c < |maxs|
    ensures Raised(maxs, wish.0, wish.1)[c] == if wish.0 == c && wish.1 > maxs[c] then wish.1 else maxs[c]
  {
  }

  lemma WishedOn(init: seq<(nat, nat)>, wishes: seq<(nat, nat)>, c: nat, n: nat)
    requires init <= wishes && Wished(init, c, n)
    ensures Wished(wishes, c, n)
  {
    var i :| 0 <= i < |init| && init[i] == (c, n);
    assert wishes[i] == (c, n);
  }

  datatype Allocated = Terminated | Failed | Allocated(data: nat)

  /** The allocator: what malloc may answer is a parameter of each call. */
  class CachedAllocator {
    /** The header word of every block that is out. */
    var words: map<Address, nat>
    const heads: array<Address>
    const counts: array<nat>
    const maxs: array<nat>

    /** The usage data, `size_t` each. */
    var count: nat
    var size: nat

    ghost var sizes: map<Address, nat>
    ghost var lists: seq<seq<Address>>
    ghost var live: set<Address>
    ghost var transit: set<Address>

    ghost function Abs(): Heap
      reads this, heads, counts, maxs
    {
      Heap(words, sizes, heads[..], lists, counts[..], maxs[..], live, transit)
    }

    ghost predicate Valid()
      reads this, heads, counts, maxs
    {
      && heads != counts && heads != maxs && counts != maxs
      && heads.Length == counts.Length == maxs.Length == SLOTS
      && Ok(Abs())
      && Accounted(Usage(count, size), Abs())
    }

    /** The sizes that are cached without being asked for, with the number of blocks to keep; `ready` once they are
        set. */
    const builtin: seq<(nat, nat)>
    var ready: bool

    constructor (builtin: seq<(nat, nat)>)
      ensures Valid() && live == {} && transit == {} && sizes == map[]
      ensures fresh(heads) && fresh(counts) && fresh(maxs)
    {
      this.builtin, ready := builtin, false;
      heads := new Address[SLOTS](_ => NULL);
      counts := new nat[SLOTS](_ => 0);
      maxs := new nat[SLOTS](_ => 0);
      words, count, size := map[], 0, 0;
      sizes, lists, live, transit := map[], seq(SLOTS, _ => []), {}, {};
      new;
      assert Abs() == Initial();
      InitialOk();
    }

    /** Lets the list of a class grow; the number of blocks to keep is never lowered. */
    method RaiseMax(c: nat, n: nat)
      requires Valid()
      modifies maxs
      ensures Valid()
      ensures maxs[..] == Raised(old(maxs[..]), c, n)
    {
      hide ListsOk, Owned, HeadersOk;
      if c < SLOTS && n > maxs[c] {
        maxs[c] := n;
        RaisedOk(old(Abs()), c, n);
      }
    }

    method InitStoreNumber()
      requires Valid()
      modifies this`ready, maxs
      ensures Valid() && ready && Abs() == old(Abs()).(maxs := maxs[..])
      ensures maxs[..] == if old(ready) then old(maxs[..]) else RaisedAll(old(maxs[..]), builtin)
    {
      if !ready {
        ready := true;
        for i := 0 to |builtin|
          invariant Valid() && ready && Abs() == old(Abs()).(maxs := maxs[..])
          invariant maxs[..] == RaisedAll(old(maxs[..]), builtin[..i])
        {
          assert builtin[..i + 1][..i] == builtin[..i];
          RaiseMax(builtin[i].0, builtin[i].1);
        }
        assert builtin[..|builtin|] == builtin;
      }
    }

    /** __dynamic_set_cache. */
    method DynamicSetCache(c: nat, n: nat) returns (r: bool)
      requires Valid()
      modifies maxs
      ensures Valid() && (r <==> c < 0x1000)
      ensures maxs[..] == Raised(old(maxs[..]), c, n)
    {
      if c >= SLOTS {
        return false;
      }
      RaiseMax(c, n);
      return true;
    }

    /** The critical section of __alloc. */
    method TakeCached(c: nat) returns (b: Address)
      requires Valid() && c < SLOTS
      modifies this`lists, this`transit, heads, counts
      ensures Valid() && (b == NULL <==> old(lists[c]) == [])
      ensures b == NULL ==> Abs() == old(Abs())
      ensures b != NULL ==> old(counts[c]) > 0 && b == old(heads[c]) && Abs() == Popped(old(Abs()), c)
    {
      ghost var h := Abs();
      b := heads[c];
      assert b != NULL ==> lists[c] != [] by {
        assert Chain(words, b, lists[c]);
      }
      if b != NULL {
        PoppedOk(h, c);
        heads[c] := words[b];
        counts[c] := counts[c] - 1;
        lists := lists[c := lists[c][1..]];
        transit := transit + {b};
      }
    }

    /** The critical section of __free: keeps the block unless the list is full. */
    method TryKeep(b: Address, c: nat) returns (kept: bool)
      requires Valid() && c < SLOTS && b in transit && sizes[b] == c
      modifies this`words, this`lists, this`transit, heads, counts
      ensures Valid() && (kept <==> old(counts[c]) < old(maxs[c]))
      ensures Abs() == if kept then Pushed(old(Abs()), b, c) else old(Abs())
    {
      hide ListsOk, Owned, HeadersOk;
      ghost var h := Abs();
      kept := counts[c] < maxs[c];
      if kept {
        PushedOk(h, b, c);
        words := words[b := heads[c]];
        heads[c] := b;
        counts[c] := counts[c] + 1;
        lists := lists[c := [b] + lists[c]];
        transit := transit - {b};
      }
    }

    /** A block from malloc, if malloc gives one. */
    method CallMalloc(b: Address, word: nat, n: nat)
      requires Valid() && (b != NULL ==> b !in sizes)
      modifies this`words, this`sizes, this`transit
      ensures Valid() && Abs() == if b == NULL then old(Abs()) else Malloced(old(Abs()), b, n, word)
    {
      hide ListsOk, Owned, HeadersOk;
      ghost var h := Abs();
      if b != NULL {
        MallocedOk(h, b, n, word);
        LiveKnown(h);
        UsedFrame(sizes, sizes[b := n], live);
        words := words[b := word];
        sizes := sizes[b := n];
        transit := transit + {b};
      }
    }

    /** The header of a block that a call has got, and the usage data. */
    method HandOut(b: Address, allocSize: nat)
      requires Valid() && b in transit && b in sizes && allocSize == WORD + sizes[b] < SIZE_MOD
      modifies this`words, this`count, this`size, this`live, this`transit
      ensures Valid() && Abs() == Committed(old(Abs()), b)
    {
      hide ListsOk, Owned, HeadersOk, CountsOk;
      ghost var h := Abs();
      assert Can(h, Commit(b));
      InTransit(h, b);
      CommitAccounted(Usage(count, size), h, b);
      hide Ok, Accounted;
      words := words[b := allocSize];
      count := (count + 1) % SIZE_MOD;
      size := (size + allocSize) % SIZE_MOD;
      live := live + {b};
      transit := transit - {b};
    }

    /** The usage data and the ownership of a block that comes back. */
    method TakeBack(b: Address) returns (allocSize: nat)
      requires Valid() && b in live
      modifies this`count, this`size, this`live, this`transit
      ensures Valid() && b in sizes && Abs() == Returned(old(Abs()), b) && allocSize == WORD + sizes[b]
    {
      hide ListsOk, Owned, HeadersOk, CountsOk;
      ghost var h := Abs();
      InUse(h, b);
      ReturnAccounted(Usage(count, size), h, b);
      hide Ok, Accounted;
      allocSize := words[b];
      count := (count - 1) % SIZE_MOD;
      size := (size - allocSize) % SIZE_MOD;
      live := live - {b};
      transit := transit + {b};
    }

    /** free. */
    method CallFree(b: Address)
      requires Valid() && b in transit
      modifies this`words, this`sizes, this`transit
      ensures Valid() && Abs() == Released(old(Abs()), b)
    {
      hide ListsOk, Owned, HeadersOk;
      ghost var h := Abs();
      ReleasedOk(h, b);
      InTransit(h, b);
      LiveKnown(h);
      UsedFrame(sizes, sizes - {b}, live);
      words := words - {b};
      sizes := sizes - {b};
      transit := transit - {b};
    }

    /** A block from the list of its size, or from malloc; `ptr` is null if there is none. */
    method Obtain(n: nat, block: Address, word: nat) returns (ptr: Address)
      requires Valid() && (block != NULL ==> block !in sizes)
      modifies this`words, this`sizes, this`lists, this`transit, heads, counts
      ensures Valid() && ptr == (if n < SLOTS && old(lists)[n] != [] then old(heads[..])[n] else block)
      ensures ptr != NULL ==> ptr in transit && ptr in sizes && sizes[ptr] == n
      ensures ptr == NULL ==> block == NULL && Abs() == old(Abs()) && !(n < SLOTS && old(lists)[n] != [])
      ensures Abs() == if n < SLOTS && old(lists)[n] != [] then Popped(old(Abs()), n)
        else if block == NULL then old(Abs()) else Malloced(old(Abs()), block, n, word)
    {
      hide ListsOk, Owned, HeadersOk;
      ghost var h := Abs();
      ptr := NULL;
      if n < SLOTS && (maxs[n] != 0 || counts[n] != 0) {
        if h.lists[n] != [] {
          PoppedOk(h, n);
        }
        ptr := TakeCached(n);
      }
      if ptr == NULL {
        CallMalloc(block, word, n);
        ptr := block;
      }
    }

    /** __alloc. `block` is what malloc answers if it is called, with `word` in its first bytes. */
    method Alloc(n: nat, block: Address, word: nat) returns (r: Allocated)
      requires Valid() && n < SIZE_MOD && (block != NULL ==> block !in sizes)
      modifies this, heads, counts, maxs
      ensures Valid() && ready
      ensures maxs[..] == if old(ready) then old(maxs[..]) else RaisedAll(old(maxs[..]), builtin)
      ensures r.Terminated? <==> 0x1_0000_0000_0000_0000 <= 8 + n
      ensures var h := old(Abs()).(maxs := maxs[..]);
        && Ok(h)
        && (r.Terminated? ==> Abs() == h)
        && (!r.Terminated? ==> var (g, b) := Allocating(h, n, block, word);
          Abs() == g && r == if b == 0 then Failed else Allocated(b + 8))
    {
      hide ListsOk, Owned, HeadersOk;
      InitStoreNumber();
      ghost var h := Abs();
      var allocSize := (WORD + n) % SIZE_MOD;
      if allocSize < n {
        return Terminated;
      }
      var ptr := Obtain(n, block, word);
      if ptr == NULL {
        return Failed;
      }
      HandOut(ptr, allocSize);
      return Allocated(ptr + WORD);
    }

    /** __free: the block is no longer live; it is cached while its list has room and given back otherwise. */
    method Free(data: nat)
      requires Valid() && (data != NULL ==> data >= WORD && data - WORD in live)
      modifies this`words, this`sizes, this`lists, this`count, this`size, this`live, this`transit, heads, counts
      ensures Valid()
      ensures Abs() == if data == 0 then old(Abs()) else Freeing(old(Abs()), data - 8)
    {
      hide ListsOk, Owned, HeadersOk;
      if data == NULL {
        return;
      }
      var org := data - WORD;
      var allocSize := TakeBack(org);
      var orgSize := allocSize - WORD;
      if orgSize >= SLOTS || maxs[orgSize] == 0 {
        CallFree(org);
        return;
      }
      var kept := TryKeep(org, orgSize);
      if !kept {
        CallFree(org);
      }
    }
  }

  /** Counters modulo the word size count modulo the word size. */
  lemma ModAdd(n: nat, k: nat)
    ensures (n % SIZE_MOD + k) % SIZE_MOD == (n + k) % SIZE_MOD
  {
  }

  lemma ModSub(n: nat, k: nat)
    requires k <= n
    ensures (n % SIZE_MOD - k) % SIZE_MOD == (n - k) % SIZE_MOD
  {
  }

  lemma RaisedOk(h: Heap, c: nat, n: nat)
    requires Ok(h) && c < SLOTS && n > h.maxs[c]
    ensures Ok(h.(maxs := h.maxs[c := n]))
  {
  }

  lemma LiveKnown(h: Heap)
    requires Ok(h)
    ensures h.live <= h.sizes.Keys
  {
  }

  lemma InTransit(h: Heap, b: Address)
    requires Ok(h) && b in h.transit
    ensures b !in h.live && b in h.sizes && b in h.words && b != NULL
  {
  }
}
