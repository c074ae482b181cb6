/** The file allocation table: one entry per block, zero for a free block, the next block of the chain, or END. */
module Fat {
  import opened Bytes

  const END: int := 0xFFFF_FFFF

  type Table = seq<int>

  // ----- searches and allocation

  /** find_free_block from i on: the lowest free block other than the current one. Block 0 is never handed out. */
  function FindFree(fat: Table, current: int, i: nat): (r: Option<nat>)
    requires 1 <= i
    ensures r.Some? ==> i <= r.value < |fat| && fat[r.value] == 0 && r.value != current
    ensures r.Some? ==> forall k :: i <= k < r.value ==> fat[k] != 0 || k == current
    ensures r.None? ==> forall k :: i <= k < |fat| ==> fat[k] != 0 || k == current
    decreases |fat| - i
  {
    if i >= |fat| then None
    else if fat[i] == 0 && i != current then Some(i)
    else FindFree(fat, current, i + 1)
  }

  datatype Growth = Growth(fat: Table, chain: seq<nat>)

  /** The loop of assign_block_size and add_blocks: up to n times a free block is linked after the current one, then the
      last block reached is the end. */
  function Grow(fat: Table, current: nat, n: int): (r: Growth)
    requires 0 < current < |fat|
    ensures |r.fat| == |fat|
    decreases if n > 0 then n else 0
  {
    if n <= 0 || FindFree(fat, current, 1).None? then Growth(fat[current := END], [current])
    else
      var b := FindFree(fat, current, 1).value;
      var rest := Grow(fat[current := b], b, n - 1);
      Growth(rest.fat, [current] + rest.chain)
  }

  function BlocksFor(size: nat, blockSize: nat): nat
    requires blockSize > 0
  {
    (size + blockSize - 1) / blockSize
  }

  /** assign_block_size; without a free block it writes nothing and answers -1. */
  function Assign(fat: Table, size: nat, blockSize: nat): (r: Option<Growth>)
    requires blockSize > 0
    ensures r.Some? ==> |r.value.fat| == |fat|
  {
    match FindFree(fat, 0, 1)
    case None => None
    case Some(first) => Some(Grow(fat, first, BlocksFor(size, blockSize)))
  }

  /** list_replace, which ignores an index outside the list. */
  function Replaced(fat: Table, i: int, v: int): (r: Table)
    ensures |r| == |fat|
  {
    if 0 <= i < |fat| then fat[i := v] else fat
  }

  /** The blocks of the chain from index k on become free. */
  function Zeroed(fat: Table, chain: seq<nat>, k: nat): (r: Table)
    ensures |r| == |fat|
    decreases |chain| - k
  {
    if k >= |chain| then fat else Replaced(Zeroed(fat, chain, k + 1), chain[k], 0)
  }

  /** free_blocks: the blocks behind index needed become free, and the entry number needed + 1 of the table becomes
      END. */
  function Shrink(fat: Table, chain: seq<nat>, needed: nat): (r: Table)
    ensures |r| == |fat|
  {
    Replaced(Zeroed(fat, chain, needed + 1), needed + 1, END)
  }

  // ----- chains

  ghost predicate IsChain(fat: Table, c: seq<nat>) {
    && c != []
    && (forall i :: 0 <= i < |c| ==> 0 < c[i] < |fat|)
    && (forall i, j :: 0 <= i < j < |c| ==> c[i] != c[j])
    && (forall i :: 0 <= i < |c| - 1 ==> fat[c[i]] == c[i + 1])
    && fat[c[|c| - 1]] == END
  }

  /** The chain of each file that has one. */
  type Chains = map<string, seq<nat>>

  /** Every chain is one in the table, no block is in two of them, and every block outside them is free. */
  ghost predicate WellFormed(fat: Table, chains: Chains) {
    && 0 < |fat| <= END && fat[0] == 0
    && (forall f :: f in chains ==> IsChain(fat, chains[f]))
    && Disjoint(chains)
    && (forall b: nat :: b < |fat| && fat[b] != 0 ==> InSomeChain(chains, b))
  }

  ghost predicate Disjoint(chains: Chains) {
    forall f, g, b :: f in chains && g in chains && b in chains[f] && b in chains[g] ==> f == g
  }

  ghost predicate InSomeChain(chains: Chains, b: nat) {
    exists f :: f in chains && b in chains[f]
  }

  function FreeBlocks(fat: Table): set<nat> {
    set b: nat | 0 < b < |fat| && fat[b] == 0
  }

  function Min(a: int, b: int): int {
    if a <= b then a else b
  }

  /** What growth does to the table and the chain it makes. */
  ghost predicate Grown(fat: Table, current: nat, r: Growth) {
    && |r.fat| == |fat| && r.chain != [] && r.chain[0] == current
    && IsChain(r.fat, r.chain)
    && (forall i :: 0 < i < |r.chain| ==> r.chain[i] in FreeBlocks(fat) && r.chain[i] != current)
    && (forall b :: 0 <= b < |fat| && b !in r.chain ==> r.fat[b] == fat[b])
  }

  lemma {:induction false} GrowMakesChain(fat: Table, current: nat, n: int)
    requires 0 < current < |fat| <= END
    ensures Grown(fat, current, Grow(fat, current, n))
    decreases if n > 0 then n else 0
  {
    var r := Grow(fat, current, n);
    if n > 0 && FindFree(fat, current, 1).Some? {
      var b := FindFree(fat, current, 1).value;
      GrowMakesChain(fat[current := b], b, n - 1);
      GrownStep(fat, current, b, Grow(fat[current := b], b, n - 1));
    }
  }

  lemma GrownStep(fat: Table, current: nat, b: nat, rest: Growth)
    requires 0 < current < |fat| && b in FreeBlocks(fat) && b != current && Grown(fat[current := b], b, rest)
    ensures Grown(fat, current, Growth(rest.fat, [current] + rest.chain))
  {
    var c := [current] + rest.chain;
    assert forall i :: 0 < i < |c| ==> c[i] == rest.chain[i - 1];
    assert current !in FreeBlocks(fat[current := b]);
    assert current !in rest.chain;
  }

  /** As many blocks are linked as were asked for, or as many as there are. */
  lemma {:induction false} GrowLength(fat: Table, current: nat, n: nat)
    requires 0 < current < |fat| <= END
    ensures |Grow(fat, current, n).chain| == Min(n, |FreeBlocks(fat) - {current}|) + 1
    decreases n
  {
    var free := FreeBlocks(fat) - {current};
    if n > 0 {
      if FindFree(fat, current, 1).Some? {
        var b := FindFree(fat, current, 1).value;
        GrowLength(fat[current := b], b, n - 1);
        assert FreeBlocks(fat[current := b]) - {b} == free - {b};
        assert b in free;
      } else {
        assert free == {};
      }
    }
  }

  // ----- allocation keeps the disk well formed

  lemma ChainUntouched(fat: Table, g: Table, c: seq<nat>)
    requires IsChain(fat, c) && |g| == |fat| && forall b :: b in c ==> g[b] == fat[b]
    ensures IsChain(g, c)
  {
  }

  lemma InChain(fat: Table, c: seq<nat>, b: nat)
    requires IsChain(fat, c) && b in c
    ensures 0 < b < |fat| && fat[b] != 0
  {
    var i :| 0 <= i < |c| && c[i] == b;
    if i < |c| - 1 {
      assert fat[c[i]] == c[i + 1];
    }
  }

  function ChainOf(chains: Chains, f: string): seq<nat> {
    if f in chains then chains[f] else []
  }

  /** File f gets the chain d instead of its old one: the blocks of d come from the old chain or were free, the blocks
      of the old chain that are not in d are free now, and nothing else in the table changes. */
  ghost predicate Rechained(fat: Table, chains: Chains, f: string, g: Table, d: seq<nat>) {
    && |g| == |fat| && IsChain(g, d)
    && (forall b :: b in d ==> b in ChainOf(chains, f) || b in FreeBlocks(fat))
    && (forall b: nat :: b < |fat| && b !in d ==> g[b] == if b in ChainOf(chains, f) then 0 else fat[b])
  }

  lemma NotInOther(chains: Chains, f: string, h: string, b: nat)
    requires Disjoint(chains) && h in chains && h != f && b in chains[h]
    ensures b !in ChainOf(chains, f)
  {
  }

  lemma OtherChainsMiss(fat: Table, chains: Chains, f: string, g: Table, d: seq<nat>, h: string, b: nat)
    requires Disjoint(chains) && h in chains && h != f && b in chains[h] && IsChain(fat, chains[h])
    requires forall x :: x in d ==> x in ChainOf(chains, f) || x in FreeBlocks(fat)
    requires |g| == |fat| && forall x: nat ::
      x < |fat| && x !in d ==> g[x] == if x in ChainOf(chains, f) then 0 else fat[x]
    ensures b !in d && 0 < b < |fat| && g[b] == fat[b]
  {
    InChain(fat, chains[h], b);
    NotInOther(chains, f, h, b);
    assert b !in FreeBlocks(fat);
  }

  lemma RechainedKeepsChains(fat: Table, chains: Chains, f: string, g: Table, d: seq<nat>, h: string)
    requires WellFormed(fat, chains) && Rechained(fat, chains, f, g, d) && h in chains && h != f
    ensures IsChain(g, chains[h])
  {
    forall b | b in chains[h] ensures 0 < b < |fat| && g[b] == fat[b] {
      OtherChainsMiss(fat, chains, f, g, d, h, b);
    }
    ChainUntouched(fat, g, chains[h]);
  }

  lemma StillInSomeChain(chains: Chains, f: string, d: seq<nat>, b: nat)
    requires b in d || (InSomeChain(chains, b) && b !in ChainOf(chains, f))
    ensures InSomeChain(chains[f := d], b)
  {
    var after := chains[f := d];
    if b in d {
      assert b in after[f];
    } else {
      var h :| h in chains && b in chains[h];
      assert b in after[h];
    }
  }

  lemma StillDisjoint(chains: Chains, f: string, d: seq<nat>)
    requires Disjoint(chains) && forall h, b :: h in chains && h != f && b in chains[h] ==> b !in d
    ensures Disjoint(chains[f := d])
  {
  }

  lemma RechainedKeeps(fat: Table, chains: Chains, f: string, g: Table, d: seq<nat>)
    requires WellFormed(fat, chains) && Rechained(fat, chains, f, g, d)
    ensures WellFormed(g, chains[f := d])
  {
    var after := chains[f := d];
    forall h | h in after ensures IsChain(g, after[h]) {
      if h != f {
        RechainedKeepsChains(fat, chains, f, g, d, h);
      }
    }
    forall h, b | h in chains && h != f && b in chains[h] ensures b !in d {
      OtherChainsMiss(fat, chains, f, g, d, h, b);
    }
    StillDisjoint(chains, f, d);
    forall b: nat | b < |g| && g[b] != 0 ensures InSomeChain(after, b) {
      StillInSomeChain(chains, f, d, b);
    }
    ZeroIsFree(fat, chains, f, g, d);
  }

  lemma ZeroIsFree(fat: Table, chains: Chains, f: string, g: Table, d: seq<nat>)
    requires WellFormed(fat, chains) && Rechained(fat, chains, f, g, d)
    ensures g[0] == 0
  {
    assert forall i :: 0 <= i < |d| ==> d[i] != 0;
  }

  lemma GrownIsRechained(fat: Table, chains: Chains, f: string, r: Growth, first: nat)
    requires WellFormed(fat, chains) && f !in chains && Grown(fat, first, r) && first in FreeBlocks(fat)
    ensures Rechained(fat, chains, f, r.fat, r.chain)
  {
  }

  /** assign_block_size on any well-formed disk with a free block: the file without blocks gets a chain of
      min(ceil(size / block) + 1, free) blocks, disjoint from all the others, which stay as they are. */
  lemma AssignKeeps(fat: Table, chains: Chains, f: string, size: nat, blockSize: nat)
    requires WellFormed(fat, chains) && f !in chains && blockSize > 0
    ensures Assign(fat, size, blockSize).None? <==> FreeBlocks(fat) == {}
    ensures FreeBlocks(fat) != {} ==>
      var r := Assign(fat, size, blockSize).value;
      && WellFormed(r.fat, chains[f := r.chain])
      && |r.chain| == Min(BlocksFor(size, blockSize) + 1, |FreeBlocks(fat)|)
  {
    match FindFree(fat, 0, 1)
    case None =>
      assert FreeBlocks(fat) == {};
    case Some(first) =>
      assert first in FreeBlocks(fat);
      var n := BlocksFor(size, blockSize);
      GrowMakesChain(fat, first, n);
      GrowLength(fat, first, n);
      assert |FreeBlocks(fat) - {first}| == |FreeBlocks(fat)| - 1;
      GrownIsRechained(fat, chains, f, Grow(fat, first, n), first);
      RechainedKeeps(fat, chains, f, Grow(fat, first, n).fat, Grow(fat, first, n).chain);
  }

  function Last(c: seq<nat>): nat
    requires c != []
  {
    c[|c| - 1]
  }

  /** Every block of the old chain but the last keeps its entry. */
  lemma OldLinksKept(fat: Table, c: seq<nat>, r: Growth, i: nat)
    requires IsChain(fat, c) && Grown(fat, Last(c), r) && i < |c| - 1
    ensures c[i] !in r.chain && r.fat[c[i]] == c[i + 1]
  {
    InChain(fat, c, c[i]);
    assert c[i] !in FreeBlocks(fat);
    assert c[i] != Last(c);
  }

  lemma JoinedDistinct(c: seq<nat>, t: seq<nat>)
    requires t != [] && (forall i, j :: 0 <= i < j < |c| ==> c[i] != c[j]) &&
      (forall i, j :: 0 <= i < j < |t| ==> t[i] != t[j])
    requires forall i, j :: 0 <= i < |c| && 0 < j < |t| ==> c[i] != t[j]
    ensures var d := c + t[1..]; forall i, j :: 0 <= i < j < |d| ==> d[i] != d[j]
  {
  }

  lemma NewBlocksAreNew(fat: Table, c: seq<nat>, r: Growth)
    requires IsChain(fat, c) && Grown(fat, Last(c), r)
    ensures forall i, j :: 0 <= i < |c| && 0 < j < |r.chain| ==> c[i] != r.chain[j]
  {
    forall i, j | 0 <= i < |c| && 0 < j < |r.chain| ensures c[i] != r.chain[j] {
      InChain(fat, c, c[i]);
    }
  }

  lemma JoinedLinks(g: Table, c: seq<nat>, t: seq<nat>)
    requires c != [] && t != [] && t[0] == Last(c)
    requires (forall i :: 0 <= i < |c| ==> c[i] < |g|) && (forall i :: 0 <= i < |t| ==> t[i] < |g|)
    requires forall i :: 0 <= i < |c| - 1 ==> g[c[i]] == c[i + 1]
    requires forall i :: 0 <= i < |t| - 1 ==> g[t[i]] == t[i + 1]
    ensures var d := c + t[1..]; forall i :: 0 <= i < |d| - 1 ==> d[i] < |g| && g[d[i]] == d[i + 1]
  {
    var d, m := c + t[1..], |c| - 1;
    forall i | 0 <= i < |d| - 1 ensures d[i] < |g| && g[d[i]] == d[i + 1] {
      if i >= m {
        assert d[i] == t[i - m] && d[i + 1] == t[i - m + 1];
      }
    }
  }

  lemma LongerChain(fat: Table, c: seq<nat>, r: Growth)
    requires IsChain(fat, c) && Grown(fat, Last(c), r)
    ensures IsChain(r.fat, c + r.chain[1..])
  {
    var d := c + r.chain[1..];
    forall i | 0 <= i < |c| - 1 ensures r.fat[c[i]] == c[i + 1] {
      OldLinksKept(fat, c, r, i);
    }
    NewBlocksAreNew(fat, c, r);
    JoinedDistinct(c, r.chain);
    JoinedLinks(r.fat, c, r.chain);
    assert Last(d) == Last(r.chain);
  }

  lemma LongerMembers(c: seq<nat>, t: seq<nat>)
    requires c != [] && t != [] && t[0] == Last(c)
    ensures forall b :: b in c + t[1..] <==> b in c || b in t
  {
    assert t == [t[0]] + t[1..];
  }

  lemma LongerIsRechained(fat: Table, chains: Chains, f: string, r: Growth)
    requires WellFormed(fat, chains) && f in chains && Grown(fat, Last(chains[f]), r)
    ensures Rechained(fat, chains, f, r.fat, chains[f] + r.chain[1..])
  {
    LongerChain(fat, chains[f], r);
    LongerMembers(chains[f], r.chain);
    forall b | b in r.chain ensures b in chains[f] || b in FreeBlocks(fat) {
      var i :| 0 <= i < |r.chain| && r.chain[i] == b;
    }
  }

  lemma NothingAdded(fat: Table, c: seq<nat>, n: nat)
    requires IsChain(fat, c) && (n == 0 || FreeBlocks(fat) == {})
    ensures Grow(fat, Last(c), n).fat == fat
  {
    assert forall k: nat :: 1 <= k < |fat| && fat[k] == 0 ==> k in FreeBlocks(fat);
  }

  lemma AddedLength(fat: Table, c: seq<nat>, n: nat)
    requires IsChain(fat, c) && |fat| <= END
    ensures Grow(fat, Last(c), n).chain != []
    ensures |c + Grow(fat, Last(c), n).chain[1..]| == |c| + Min(n, |FreeBlocks(fat)|)
  {
    GrowLength(fat, Last(c), n);
    InChain(fat, c, Last(c));
    assert FreeBlocks(fat) - {Last(c)} == FreeBlocks(fat);
  }

  /** add_blocks on any chain of a well-formed disk: the chain keeps all its blocks and gets min(n, free) more, the
      other chains stay as they are, and when it gets none the table does not change. */
  lemma AddKeeps(fat: Table, chains: Chains, f: string, n: nat)
    requires WellFormed(fat, chains) && f in chains
    ensures chains[f] != [] && 0 < Last(chains[f]) < |fat|
    ensures var r := Grow(fat, Last(chains[f]), n);
      && r.chain != [] && WellFormed(r.fat, chains[f := chains[f] + r.chain[1..]])
      && |chains[f] + r.chain[1..]| == |chains[f]| + Min(n, |FreeBlocks(fat)|)
      && (n == 0 || FreeBlocks(fat) == {} ==> r.fat == fat)
  {
    var c := chains[f];
    assert IsChain(fat, c);
    AddedLength(fat, c, n);
    AddKeepsForm(fat, chains, f, c, n);
    if n == 0 || FreeBlocks(fat) == {} {
      NothingAdded(fat, c, n);
    }
  }

  lemma AddKeepsForm(fat: Table, chains: Chains, f: string, c: seq<nat>, n: nat)
    requires WellFormed(fat, chains) && f in chains && c == chains[f]
    ensures c != [] && 0 < Last(c) < |fat| && Grow(fat, Last(c), n).chain != []
    ensures WellFormed(Grow(fat, Last(c), n).fat, chains[f := c + Grow(fat, Last(c), n).chain[1..]])
  {
    var r := Grow(fat, Last(c), n);
    GrowMakesChain(fat, Last(c), n);
    LongerIsRechained(fat, chains, f, r);
    RechainedKeeps(fat, chains, f, r.fat, c + r.chain[1..]);
  }

  // ----- accounting

  /** The blocks of all chains. */
  function Taken(chains: Chains): set<nat> {
    set f, b | f in chains && b in chains[f] :: b
  }

  ghost function TotalLength(chains: Chains): nat
    decreases |chains|
  {
    if chains == map[] then 0
    else
      var f :| f in chains;
      assert |chains - {f}| < |chains| by { FewerChains(chains, f); }
      |chains[f]| + TotalLength(chains - {f})
  }

  lemma FewerChains(chains: Chains, f: string)
    requires f in chains
    ensures |chains - {f}| < |chains|
  {
    assert (chains - {f}).Keys == chains.Keys - {f};
    assert |chains.Keys - {f}| < |chains.Keys|;
  }

  function Elements(c: seq<nat>): set<nat> {
    set b | b in c
  }

  lemma {:induction false} DistinctCount(c: seq<nat>)
    requires forall i, j :: 0 <= i < j < |c| ==> c[i] != c[j]
    ensures |Elements(c)| == |c|
  {
    if c == [] {
      assert Elements(c) == {};
    } else {
      DistinctCount(c[1..]);
      assert c == [c[0]] + c[1..];
      assert c[0] !in c[1..];
      assert Elements(c) == Elements(c[1..]) + {c[0]};
    }
  }

  lemma TakenSplits(chains: Chains, f: string)
    requires Disjoint(chains) && f in chains
    ensures Taken(chains) == Elements(chains[f]) + Taken(chains - {f})
    ensures Elements(chains[f]) !! Taken(chains - {f})
  {
    var rest := chains - {f};
    forall b ensures b in Taken(chains) <==> b in Elements(chains[f]) || b in Taken(rest) {
      if b in Taken(chains) {
        var h :| h in chains && b in chains[h];
        assert h != f ==> b in rest[h];
      }
    }
  }

  lemma {:induction false} TakenCount(chains: Chains)
    requires Disjoint(chains)
    requires forall f, i, j :: f in chains && 0 <= i < j < |chains[f]| ==> chains[f][i] != chains[f][j]
    ensures |Taken(chains)| == TotalLength(chains)
    decreases |chains|
  {
    if chains == map[] {
      assert Taken(chains) == {};
    } else {
      var f :| f in chains && TotalLength(chains) == |chains[f]| + TotalLength(chains - {f});
      FewerChains(chains, f);
      TakenCount(chains - {f});
      DistinctCount(chains[f]);
      TakenSplits(chains, f);
    }
  }

  function Range(n: nat): (r: set<nat>)
    ensures |r| == n && forall b :: b in r <==> 0 < b <= n
  {
    if n == 0 then {} else Range(n - 1) + {n}
  }

  lemma TakenIsUsed(fat: Table, chains: Chains, b: nat)
    requires WellFormed(fat, chains) && 0 < b < |fat|
    ensures b in Taken(chains) <==> fat[b] != 0
  {
    if b in Taken(chains) {
      var f :| f in chains && b in chains[f];
      InChain(fat, chains[f], b);
    }
    if fat[b] != 0 {
      assert InSomeChain(chains, b);
    }
  }

  lemma TakenInRange(fat: Table, chains: Chains, b: nat)
    requires (forall f :: f in chains ==> IsChain(fat, chains[f])) && b in Taken(chains)
    ensures 0 < b < |fat|
  {
    var f :| f in chains && b in chains[f];
    InChain(fat, chains[f], b);
  }

  lemma RangeSplits(n: nat, free: set<nat>, taken: set<nat>)
    requires free !! taken && forall b :: 0 < b <= n <==> b in free || b in taken
    ensures |free| + |taken| == n
  {
    assert Range(n) == free + taken;
  }

  /** No block gets lost: free blocks and chain lengths add up to the blocks behind block 0. */
  lemma Accounted(fat: Table, chains: Chains)
    requires WellFormed(fat, chains)
    ensures |FreeBlocks(fat)| + TotalLength(chains) == |fat| - 1
  {
    forall f, i, j | f in chains && 0 <= i < j < |chains[f]| ensures chains[f][i] != chains[f][j] {
      assert IsChain(fat, chains[f]);
    }
    TakenCount(chains);
    forall b ensures 0 < b <= |fat| - 1 <==> b in FreeBlocks(fat) || b in Taken(chains) {
      if b in Taken(chains) {
        TakenInRange(fat, chains, b);
      }
      if 0 < b < |fat| {
        TakenIsUsed(fat, chains, b);
      }
    }
    forall b | b in Taken(chains) ensures b !in FreeBlocks(fat) {
      TakenInRange(fat, chains, b);
      TakenIsUsed(fat, chains, b);
    }
    RangeSplits(|fat| - 1, FreeBlocks(fat), Taken(chains));
  }

  // ----- shrinking

  lemma {:induction false} ZeroedAt(fat: Table, c: seq<nat>, k: nat)
    requires forall i :: 0 <= i < |c| ==> c[i] < |fat|
    ensures forall b: nat :: b < |fat| ==> Zeroed(fat, c, k)[b] == if k <= |c| && b in c[k..] then 0 else fat[b]
    decreases |c| - k
  {
    if k < |c| {
      ZeroedAt(fat, c, k + 1);
      assert c[k..] == [c[k]] + c[k + 1..];
    }
  }

  /** What a shrink to index needed should leave to the file. */
  function Kept(c: seq<nat>, needed: nat): seq<nat> {
    if needed + 1 < |c| then c[..needed + 1] else c
  }

  /** The guard a caller of free_blocks can check: the entry it overwrites is the last kept block, or already an end,
      or outside. */
  predicate ShrinkIsExact(fat: Table, c: seq<nat>, needed: nat) {
    if needed + 1 < |c| then c[needed] == needed + 1 else needed + 1 >= |fat| || fat[needed + 1] == END
  }

  /** What free_blocks leaves in every entry. */
  ghost predicate ShrinkEntries(fat: Table, c: seq<nat>, needed: nat, g: Table)
    requires needed + 1 <= |c|
  {
    |g| == |fat| && forall b: nat :: b < |fat| ==>
      g[b] == if b == needed + 1 then END else if b in c[needed + 1..] then 0 else fat[b]
  }

  lemma ShrinkAt(fat: Table, c: seq<nat>, needed: nat)
    requires needed + 1 <= |c| && forall i :: 0 <= i < |c| ==> c[i] < |fat|
    ensures ShrinkEntries(fat, c, needed, Shrink(fat, c, needed))
  {
    ZeroedAt(fat, c, needed + 1);
  }

  lemma KeptNotFreed(c: seq<nat>, k: nat, i: nat)
    requires i < k <= |c| && forall x, y :: 0 <= x < y < |c| ==> c[x] != c[y]
    ensures c[i] !in c[k..]
  {
  }

  lemma ShrunkChain(fat: Table, c: seq<nat>, needed: nat, g: Table)
    requires IsChain(fat, c) && needed + 1 < |c| && c[needed] == needed + 1 && ShrinkEntries(fat, c, needed, g)
    ensures IsChain(g, c[..needed + 1])
  {
    forall i | 0 <= i < needed ensures g[c[i]] == c[i + 1] {
      KeptNotFreed(c, needed + 1, i);
      assert fat[c[i]] == c[i + 1];
    }
  }

  lemma InEitherPart(c: seq<nat>, k: nat, b: nat)
    requires k <= |c|
    ensures b in c <==> b in c[..k] || b in c[k..]
  {
    assert c == c[..k] + c[k..];
  }

  lemma ShrunkElsewhere(fat: Table, c: seq<nat>, needed: nat, g: Table, b: nat)
    requires needed + 1 < |c| && c[needed] == needed + 1 && ShrinkEntries(fat, c, needed, g) && b < |fat| &&
      b !in c[..needed + 1]
    ensures g[b] == if b in c then 0 else fat[b]
  {
    InEitherPart(c, needed + 1, b);
    assert c[..needed + 1][needed] == needed + 1;
  }

  lemma PrefixMembers(c: seq<nat>, k: nat)
    requires k <= |c|
    ensures forall b :: b in c[..k] ==> b in c
  {
  }

  lemma ShorterChainFits(fat: Table, chains: Chains, f: string, g: Table, c: seq<nat>, d: seq<nat>)
    requires WellFormed(fat, chains) && f in chains && c == chains[f] && |g| == |fat| && IsChain(g, d)
    requires forall b :: b in d ==> b in c
    requires forall b: nat :: b < |fat| && b !in d ==> g[b] == if b in c then 0 else fat[b]
    ensures WellFormed(g, chains[f := d])
  {
    RechainedKeeps(fat, chains, f, g, d);
  }

  lemma ExactShrinkFits(fat: Table, c: seq<nat>, needed: nat, g: Table, d: seq<nat>)
    requires IsChain(fat, c) && ShrinkIsExact(fat, c, needed) && g == Shrink(fat, c, needed) && d == Kept(c, needed)
    ensures |g| == |fat| && IsChain(g, d) && (forall b :: b in d ==> b in c)
    ensures forall b: nat :: b < |fat| && b !in d ==> g[b] == if b in c then 0 else fat[b]
  {
    if needed + 1 < |c| {
      ShrinkAt(fat, c, needed);
      ShrunkChain(fat, c, needed, g);
      PrefixMembers(c, needed + 1);
      forall b: nat | b < |fat| && b !in d ensures g[b] == if b in c then 0 else fat[b] {
        ShrunkElsewhere(fat, c, needed, g, b);
      }
    } else {
      assert g == fat;
    }
  }

  /** When the guard holds the disk stays well formed. */
  lemma ExactShrinkKeeps(fat: Table, chains: Chains, f: string, c: seq<nat>, needed: nat, g: Table, d: seq<nat>)
    requires WellFormed(fat, chains) && f in chains && c == chains[f] && ShrinkIsExact(fat, c, needed)
    requires g == Shrink(fat, c, needed) && d == Kept(c, needed)
    ensures WellFormed(g, chains[f := d])
  {
    ExactShrinkFits(fat, c, needed, g, d);
    ShorterChainFits(fat, chains, f, g, c, d);
  }

  /** The last kept block is not the overwritten entry: it still points at a freed block. */
  lemma StrayEndCutsNothing(fat: Table, c: seq<nat>, needed: nat, g: Table)
    requires IsChain(fat, c) && |fat| <= END && needed + 1 < |c| && c[needed] != needed + 1 &&
      ShrinkEntries(fat, c, needed, g)
    ensures !IsChain(g, c[..needed + 1])
  {
    KeptNotFreed(c, needed + 1, needed);
    assert fat[c[needed]] == c[needed + 1];
    assert g[c[needed]] == c[needed + 1];
  }

  lemma OverwrittenLink(fat: Table, g: Table, c: seq<nat>, b: nat)
    requires IsChain(fat, c) && |fat| <= END && b in c && fat[b] != END && |g| == |fat| && g[b] == END
    ensures !IsChain(g, c)
  {
    var i :| 0 <= i < |c| && c[i] == b;
    assert fat[c[i]] == c[i + 1];
  }

  /** A stray end on a link of some chain, or on a free block, breaks the disk. */
  lemma StrayEndHits(fat: Table, g: Table, chains: Chains, after: Chains, b: nat)
    requires WellFormed(fat, chains) && b < |fat| && fat[b] != END && |g| == |fat| && g[b] == END
    requires forall h :: h in after ==> h in chains && after[h] == chains[h]
    ensures !WellFormed(g, after)
  {
    if WellFormed(g, after) {
      assert InSomeChain(after, b);
      var h :| h in after && b in after[h];
      OverwrittenLink(fat, g, chains[h], b);
      assert false;
    }
  }

  lemma BadChain(g: Table, chains: Chains, f: string, d: seq<nat>)
    requires !IsChain(g, d)
    ensures !WellFormed(g, chains[f := d])
  {
    var after := chains[f := d];
    assert f in after && after[f] == d;
  }

  lemma IdleShrink(fat: Table, c: seq<nat>, needed: nat)
    requires |c| <= needed + 1 && needed + 1 < |fat|
    ensures Shrink(fat, c, needed)[needed + 1] == END
  {
  }

  lemma CuttingShrinkBreaks(fat: Table, chains: Chains, f: string, c: seq<nat>, needed: nat)
    requires IsChain(fat, c) && |fat| <= END && needed + 1 < |c| && c[needed] != needed + 1
    ensures !WellFormed(Shrink(fat, c, needed), chains[f := Kept(c, needed)])
  {
    ShrinkAt(fat, c, needed);
    StrayEndCutsNothing(fat, c, needed, Shrink(fat, c, needed));
    BadChain(Shrink(fat, c, needed), chains, f, Kept(c, needed));
  }

  lemma SameChains(chains: Chains, f: string, c: seq<nat>)
    requires f in chains && c == chains[f]
    ensures forall h :: h in chains[f := c] ==> h in chains && chains[f := c][h] == chains[h]
  {
  }

  lemma IdleShrinkBreaks(fat: Table, chains: Chains, c: seq<nat>, needed: nat, g: Table, after: Chains)
    requires WellFormed(fat, chains)
    requires |c| <= needed + 1 < |fat| && fat[needed + 1] != END && |g| == |fat| && g[needed + 1] == END
    requires forall h :: h in after ==> h in chains && after[h] == chains[h]
    ensures !WellFormed(g, after)
  {
    StrayEndHits(fat, g, chains, after, needed + 1);
  }

  /** free_blocks leaves a well-formed disk on which the file has exactly its first needed + 1 blocks, if and only if
      that guard holds. */
  lemma ShrinkKeepsIff(fat: Table, chains: Chains, f: string, needed: nat)
    requires WellFormed(fat, chains) && f in chains
    ensures WellFormed(Shrink(fat, chains[f], needed), chains[f := Kept(chains[f], needed)]) <==>
            ShrinkIsExact(fat, chains[f], needed)
  {
    var c := chains[f];
    if ShrinkIsExact(fat, c, needed) {
      ExactShrinkKeeps(fat, chains, f, c, needed, Shrink(fat, c, needed), Kept(c, needed));
    } else if needed + 1 < |c| {
      CuttingShrinkBreaks(fat, chains, f, c, needed);
    } else {
      IdleShrink(fat, c, needed);
      SameChains(chains, f, c);
      IdleShrinkBreaks(fat, chains, c, needed, Shrink(fat, c, needed), chains[f := c]);
    }
  }

  /** The k-th entry that a traversal reads. */
  function Walk(fat: Table, b: nat, k: nat): int {
    if k == 0 then b
    else
      var p := Walk(fat, b, k - 1);
      if 0 <= p < |fat| then fat[p] else p
  }

  lemma TwoFiles(fat: Table, chains: Chains)
    requires fat == [0, 2, END, 4, 5, END] && chains == map["a" := [1, 2], "b" := [3, 4, 5]]
    ensures WellFormed(fat, chains)
  {
    assert |fat| == 6 && fat[1] == 2 && fat[2] == END && fat[3] == 4 && fat[4] == 5 && fat[5] == END;
    var a: seq<nat>, b: seq<nat> := [1, 2], [3, 4, 5];
    assert IsChain(fat, a);
    assert IsChain(fat, b);
    assert chains["a"] == a && chains["b"] == b;
    assert Disjoint(chains);
    forall k: nat | k < |fat| && fat[k] != 0 ensures InSomeChain(chains, k) {
      assert k == a[0] || k == a[1] || k == b[0] || k == b[1] || k == b[2];
      assert k in chains["a"] || k in chains["b"];
    }
  }

  /** A disk where a shrink breaks: file a has blocks 1 and 2, file b has 3, 4 and 5. After freeing b down to two
      blocks the traversal of b never meets an end. */
  lemma ShrinkCanBreak(k: nat)
    ensures WellFormed([0, 2, END, 4, 5, END], map["a" := [1, 2], "b" := [3, 4, 5]])
    ensures Shrink([0, 2, END, 4, 5, END], [3, 4, 5], 1) == [0, 2, END, 4, 5, 0]
    ensures Walk([0, 2, END, 4, 5, 0], 3, k) != END
  {
    TwoFiles([0, 2, END, 4, 5, END], map["a" := [1, 2], "b" := [3, 4, 5]]);
    ZeroedAt([0, 2, END, 4, 5, END], [3, 4, 5], 2);
    assert [3, 4, 5][2..] == [5];
    WalkLoops(k);
  }

  lemma {:induction false} WalkLoops(k: nat)
    ensures var w := Walk([0, 2, END, 4, 5, 0], 3, k);
      w == if k == 0 then 3 else if k == 1 then 4 else if k == 2 then 5 else 0
  {
    if k > 0 {
      WalkLoops(k - 1);
    }
  }

  // ----- what growth does to a file

  function One(b: bool): nat {
    if b then 1 else 0
  }

  /** truncate_file asks add_blocks for this many blocks when a file grows. */
  function Asked(blockSize: nat, size: nat, newSize: nat): int
    requires blockSize > 0
  {
    (newSize / blockSize + 1) - (size / blockSize + 1) - 1
  }

  /** How many blocks a first size and a series of growths ask for in all. */
  function LengthAfter(blockSize: nat, sizes: seq<nat>): nat
    requires blockSize > 0 && sizes != []
  {
    if |sizes| == 1 then BlocksFor(sizes[0], blockSize) + 1
    else
      var asked := Asked(blockSize, sizes[|sizes| - 2], sizes[|sizes| - 1]);
      LengthAfter(blockSize, sizes[..|sizes| - 1]) + if asked > 0 then asked else 0
  }

  /** How many of the growths reach a new block. */
  function Crossings(blockSize: nat, sizes: seq<nat>): nat
    requires blockSize > 0 && sizes != []
  {
    if |sizes| == 1 then 0
    else
      Crossings(blockSize, sizes[..|sizes| - 1]) +
      One(sizes[|sizes| - 1] / blockSize > sizes[|sizes| - 2] / blockSize)
  }

  ghost predicate Increasing(sizes: seq<nat>) {
    sizes != [] && sizes[0] > 0 && forall i :: 0 < i < |sizes| ==> sizes[i - 1] < sizes[i]
  }

  lemma Monotone(a: int, b: int, d: nat)
    ensures a <= b ==> a * d <= b * d
  {
  }

  lemma QuotientGrows(blockSize: nat, a: nat, b: nat)
    requires blockSize > 0 && a <= b
    ensures a / blockSize <= b / blockSize
  {
    var qa, qb := a / blockSize, b / blockSize;
    assert a == qa * blockSize + a % blockSize && b == qb * blockSize + b % blockSize;
    Monotone(qb + 1, qa, blockSize);
  }

  lemma RoundedUp(blockSize: nat, size: nat)
    requires blockSize > 0
    ensures BlocksFor(size, blockSize) == size / blockSize + One(size % blockSize != 0)
  {
    var q, m := size / blockSize, size % blockSize;
    assert size == q * blockSize + m;
    if m == 0 {
      assert (q * blockSize + (blockSize - 1)) / blockSize == q by { Quotient(blockSize, q, blockSize - 1); }
    } else {
      assert ((q + 1) * blockSize + (m - 1)) / blockSize == q + 1 by { Quotient(blockSize, q + 1, m - 1); }
      assert size + blockSize - 1 == (q + 1) * blockSize + (m - 1);
    }
  }

  lemma Quotient(d: nat, q: nat, m: nat)
    requires m < d
    ensures (q * d + m) / d == q
  {
    var r := (q * d + m) / d;
    assert q * d + m == r * d + (q * d + m) % d;
    Monotone(r + 1, q, d);
    Monotone(q + 1, r, d);
  }

  /** Every growth that reaches a new block is one block short. */
  lemma {:induction false} GrowthLosesBlocks(blockSize: nat, sizes: seq<nat>)
    requires blockSize > 0 && Increasing(sizes)
    ensures LengthAfter(blockSize, sizes) + Crossings(blockSize, sizes) ==
            BlocksFor(sizes[0], blockSize) + 1 + sizes[|sizes| - 1] / blockSize - sizes[0] / blockSize
  {
    if |sizes| > 1 {
      GrowthLosesBlocks(blockSize, sizes[..|sizes| - 1]);
      QuotientGrows(blockSize, sizes[|sizes| - 2], sizes[|sizes| - 1]);
    }
  }

  /** So the chain covers the size of the file exactly while the growths that reached a new block are few enough: at
      most one, with one more if the first size was not a multiple of the block, and one less if the last size is
      not. */
  lemma GrowthCoversIff(blockSize: nat, sizes: seq<nat>)
    requires blockSize > 0 && Increasing(sizes)
    ensures var last := sizes[|sizes| - 1];
      LengthAfter(blockSize, sizes) >= BlocksFor(last, blockSize) <==>
      Crossings(blockSize, sizes) + One(last % blockSize != 0) <= 1 + One(sizes[0] % blockSize != 0)
  {
    GrowthLosesBlocks(blockSize, sizes);
    RoundedUp(blockSize, sizes[0]);
    RoundedUp(blockSize, sizes[|sizes| - 1]);
  }

  // ----- a whole series of truncations

  datatype Disk = Disk(fat: Table, chains: Chains)

  /** truncate_file on an empty file. */
  function CreatedWith(d: Disk, f: string, size: nat, blockSize: nat): Disk
    requires blockSize > 0
  {
    match Assign(d.fat, size, blockSize)
    case None => d
    case Some(r) => Disk(r.fat, d.chains[f := r.chain])
  }

  /** truncate_file to a larger size. */
  function GrownTo(d: Disk, f: string, size: nat, newSize: nat, blockSize: nat): Disk
    requires blockSize > 0
  {
    var c := ChainOf(d.chains, f);
    if c != [] && 0 < Last(c) < |d.fat| then
      var r := Grow(d.fat, Last(c), Asked(blockSize, size, newSize));
      Disk(r.fat, d.chains[f := c + if r.chain == [] then [] else r.chain[1..]])
    else d
  }

  /** The disk after a first size and a series of growths. */
  function SizedThrough(d: Disk, f: string, sizes: seq<nat>, blockSize: nat): Disk
    requires blockSize > 0 && sizes != []
  {
    if |sizes| == 1 then CreatedWith(d, f, sizes[0], blockSize)
    else
      var before := SizedThrough(d, f, sizes[..|sizes| - 1], blockSize);
      GrownTo(before, f, sizes[|sizes| - 2], sizes[|sizes| - 1], blockSize)
  }

  lemma {:induction false} TotalTake(chains: Chains, f: string)
    requires f in chains
    ensures TotalLength(chains) == |chains[f]| + TotalLength(chains - {f})
    decreases |chains|
  {
    var g :| g in chains && TotalLength(chains) == |chains[g]| + TotalLength(chains - {g});
    if g != f {
      FewerChains(chains, g);
      FewerChains(chains, f);
      TotalTake(chains - {g}, f);
      TotalTake(chains - {f}, g);
      assert chains - {g} - {f} == chains - {f} - {g};
    }
  }

  lemma TotalPut(chains: Chains, f: string, c: seq<nat>)
    ensures TotalLength(chains[f := c]) + |ChainOf(chains, f)| == TotalLength(chains) + |c|
  {
    TotalTake(chains[f := c], f);
    assert chains[f := c] - {f} == chains - {f};
    if f in chains {
      TotalTake(chains, f);
    } else {
      assert chains - {f} == chains;
    }
  }

  /** What the chain of f gets is what the free blocks lose. */
  lemma FreeLeft(fat: Table, chains: Chains, g: Table, f: string, c: seq<nat>)
    requires WellFormed(fat, chains) && WellFormed(g, chains[f := c]) && |g| == |fat|
    ensures |FreeBlocks(g)| + |c| == |FreeBlocks(fat)| + |ChainOf(chains, f)|
  {
    Accounted(fat, chains);
    Accounted(g, chains[f := c]);
    TotalPut(chains, f, c);
  }

  /** The disk t is well formed, the file has this many blocks, all of them taken from the free ones of d, and the
      other files have their chains. */
  ghost predicate Has(d: Disk, t: Disk, f: string, length: nat) {
    Extends(d.fat, d.chains, t.fat, t.chains, f, length)
  }

  ghost predicate Extends(fat: Table, chains: Chains, g: Table, after: Chains, f: string, length: nat) {
    && WellFormed(g, after) && |g| == |fat|
    && f in after && |after[f]| == length
    && OthersKept(chains, after, f)
    && |FreeBlocks(g)| == |FreeBlocks(fat)| - length
  }

  ghost predicate OthersKept(chains: Chains, after: Chains, f: string) {
    forall h :: h in chains && h != f ==> h in after && after[h] == chains[h]
  }

  lemma CreatedHas(d: Disk, f: string, size: nat, blockSize: nat)
    requires blockSize > 0 && WellFormed(d.fat, d.chains) && f !in d.chains
    requires FreeBlocks(d.fat) != {}
    ensures Has(d, CreatedWith(d, f, size, blockSize), f, Min(BlocksFor(size, blockSize) + 1, |FreeBlocks(d.fat)|))
  {
    AssignKeeps(d.fat, d.chains, f, size, blockSize);
    var r := Assign(d.fat, size, blockSize).value;
    FreeLeft(d.fat, d.chains, r.fat, f, r.chain);
  }

  lemma GrowNothing(fat: Table, current: nat, n: int)
    requires 0 < current < |fat| && n <= 0
    ensures Grow(fat, current, n) == Grow(fat, current, 0)
  {
  }

  lemma ExtendsFurther(fat: Table, chains: Chains, g: Table, after: Chains, f: string, length: nat,
                       u: Table, last: Chains, c: seq<nat>, added: nat)
    requires Extends(fat, chains, g, after, f, length) && |u| == |g|
    requires last == after[f := c] && WellFormed(u, last) && |c| == length + added
    ensures Extends(fat, chains, u, last, f, length + added)
  {
    FreeLeft(g, after, u, f, c);
    StillKept(chains, after, f, c);
  }

  lemma StillKept(chains: Chains, after: Chains, f: string, c: seq<nat>)
    requires OthersKept(chains, after, f)
    ensures OthersKept(chains, after[f := c], f)
  {
  }

  lemma GrownToIs(t: Disk, f: string, size: nat, newSize: nat, blockSize: nat, c: seq<nat>, r: Growth)
    requires blockSize > 0 && f in t.chains && c == t.chains[f] && c != [] && 0 < Last(c) < |t.fat|
    requires r == Grow(t.fat, Last(c), Asked(blockSize, size, newSize)) && r.chain != []
    ensures GrownTo(t, f, size, newSize, blockSize) == Disk(r.fat, t.chains[f := c + r.chain[1..]])
  {
  }

  lemma HasSame(d: Disk, t: Disk, u: Disk, f: string, length: nat, total: nat)
    requires Has(d, t, f, length) && t == u && length == total
    ensures Has(d, u, f, total)
  {
  }

  lemma GrownHas(d: Disk, t: Disk, f: string, length: nat, size: nat, newSize: nat, blockSize: nat, asked: nat)
    requires blockSize > 0 && Has(d, t, f, length)
    requires asked == if Asked(blockSize, size, newSize) > 0 then Asked(blockSize, size, newSize) else 0
    ensures Has(d, GrownTo(t, f, size, newSize, blockSize), f, length + Min(asked, |FreeBlocks(t.fat)|))
  {
    var c := t.chains[f];
    AddKeeps(t.fat, t.chains, f, asked);
    var r := Grow(t.fat, Last(c), asked);
    if Asked(blockSize, size, newSize) <= 0 {
      GrowNothing(t.fat, Last(c), Asked(blockSize, size, newSize));
    }
    GrownToIs(t, f, size, newSize, blockSize, c, r);
    var u, added := Disk(r.fat, t.chains[f := c + r.chain[1..]]), Min(asked, |FreeBlocks(t.fat)|);
    ExtendsFurther(d.fat, d.chains, t.fat, t.chains, f, length, u.fat, u.chains, c + r.chain[1..], added);
    HasSame(d, u, GrownTo(t, f, size, newSize, blockSize), f, length + added, length + added);
  }

  lemma SeriesStep(d: Disk, t: Disk, u: Disk, f: string, length: nat, size: nat, newSize: nat, blockSize: nat,
                   asked: nat, total: nat)
    requires blockSize > 0 && Has(d, t, f, length)
    requires asked == if Asked(blockSize, size, newSize) > 0 then Asked(blockSize, size, newSize) else 0
    requires u == GrownTo(t, f, size, newSize, blockSize) && total == length + Min(asked, |FreeBlocks(d.fat)| - length)
    ensures Has(d, u, f, total)
  {
    FreeOf(d, t, f, length);
    GrownHas(d, t, f, length, size, newSize, blockSize, asked);
    HasSame(d, GrownTo(t, f, size, newSize, blockSize), u, f, length + Min(asked, |FreeBlocks(t.fat)|), total);
  }

  lemma FreeOf(d: Disk, t: Disk, f: string, length: nat)
    requires Has(d, t, f, length)
    ensures |FreeBlocks(t.fat)| == |FreeBlocks(d.fat)| - length
  {
  }

  /** On any well-formed disk with a free block, whatever the series of growths and even when the disk fills up
      midway, the disk stays well formed and the file has as many blocks as it asked for in all, or as many as were
      free. */
  lemma {:induction false} SeriesKeeps(d: Disk, f: string, sizes: seq<nat>, blockSize: nat)
    requires blockSize > 0 && Increasing(sizes) && WellFormed(d.fat, d.chains) && f !in d.chains
    requires FreeBlocks(d.fat) != {}
    ensures Has(d, SizedThrough(d, f, sizes, blockSize), f, Min(LengthAfter(blockSize, sizes), |FreeBlocks(d.fat)|))
  {
    if |sizes| == 1 {
      CreatedHas(d, f, sizes[0], blockSize);
    } else {
      var before, n := sizes[..|sizes| - 1], |sizes|;
      var asked := Asked(blockSize, sizes[n - 2], sizes[n - 1]);
      SeriesKeeps(d, f, before, blockSize);
      SeriesStep(d, SizedThrough(d, f, before, blockSize), SizedThrough(d, f, sizes, blockSize), f,
                 Min(LengthAfter(blockSize, before), |FreeBlocks(d.fat)|), sizes[n - 2], sizes[n - 1], blockSize,
                 if asked > 0 then asked else 0, Min(LengthAfter(blockSize, sizes), |FreeBlocks(d.fat)|));
    }
  }

  /** A full disk gives the file nothing. */
  lemma {:induction false} FullDiskStays(d: Disk, f: string, sizes: seq<nat>, blockSize: nat)
    requires blockSize > 0 && sizes != [] && WellFormed(d.fat, d.chains) && f !in d.chains && FreeBlocks(d.fat) == {}
    ensures SizedThrough(d, f, sizes, blockSize) == d
  {
    if |sizes| == 1 {
      AssignKeeps(d.fat, d.chains, f, sizes[0], blockSize);
    } else {
      FullDiskStays(d, f, sizes[..|sizes| - 1], blockSize);
    }
  }

  /** Main result, on any well-formed disk: after any such series the disk is well formed, and the blocks of the file
      cover its size if and only if that many blocks were free at first and few enough of the growths reached a new
      block. */
  lemma FileIsCoveredIff(d: Disk, f: string, sizes: seq<nat>, blockSize: nat)
    requires blockSize > 0 && Increasing(sizes) && WellFormed(d.fat, d.chains) && f !in d.chains
    ensures var t, last := SizedThrough(d, f, sizes, blockSize), sizes[|sizes| - 1];
      && WellFormed(t.fat, t.chains)
      && (|ChainOf(t.chains, f)| >= BlocksFor(last, blockSize) <==>
          BlocksFor(last, blockSize) <= |FreeBlocks(d.fat)| &&
          Crossings(blockSize, sizes) + One(last % blockSize != 0) <= 1 + One(sizes[0] % blockSize != 0))
  {
    GrowthCoversIff(blockSize, sizes);
    if FreeBlocks(d.fat) == {} {
      FullDiskStays(d, f, sizes, blockSize);
      SomeBlocks(sizes[|sizes| - 1], blockSize);
    } else {
      SeriesKeeps(d, f, sizes, blockSize);
    }
  }

  lemma SomeBlocks(size: nat, blockSize: nat)
    requires blockSize > 0 && size > 0
    ensures BlocksFor(size, blockSize) > 0
  {
    QuotientGrows(blockSize, blockSize, size + blockSize - 1);
  }
}
