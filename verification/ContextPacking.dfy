/**
 The two greedy packers that fill a bounded model context with evidence: the agents' packer, which
 may cut the last block, and the answer packer, which cuts only a first block that cannot fit.
 */
module ContextPacking {
  import opened Common

  /** One evidence item: its header line and its text. */
  datatype Item = Item(header: string, content: string)

  const SEPARATOR := "\n\n"

  function Block(it: Item): string {
    it.header + it.content
  }

  function Join(blocks: seq<string>, separator: string): string {
    if blocks == [] then ""
    else if |blocks| == 1 then blocks[0]
    else Join(blocks[..|blocks| - 1], separator) + separator + blocks[|blocks| - 1]
  }

  function SeparatorLength(k: nat): nat {
    if k == 0 then 0 else 2
  }

  function CompleteBlocks(items: seq<Item>, k: nat): (blocks: seq<string>)
    requires k <= |items|
    ensures |blocks| == k
  {
    seq(k, i requires 0 <= i < k => Block(items[i]))
  }

  /** The first k items, complete and joined. */
  function Whole(items: seq<Item>, k: nat): string
    requires k <= |items|
  {
    Join(CompleteBlocks(items, k), SEPARATOR)
  }

  /** How many characters the first k items take. */
  function Reach(items: seq<Item>, k: nat): nat
    requires k <= |items|
  {
    if k == 0 then 0 else Reach(items, k - 1) + SeparatorLength(k - 1) + |Block(items[k - 1])|
  }

  lemma WholeGrows(items: seq<Item>, k: nat)
    requires k < |items|
    ensures Whole(items, k + 1) ==
            if k == 0 then Block(items[0]) else Whole(items, k) + SEPARATOR + Block(items[k])
  {
    assert CompleteBlocks(items, k + 1)[..k] == CompleteBlocks(items, k);
  }

  lemma {:induction false} ReachIsLength(items: seq<Item>, k: nat)
    requires k <= |items|
    ensures |Whole(items, k)| == Reach(items, k)
    decreases k
  {
    if k > 0 {
      ReachIsLength(items, k - 1);
      WholeLength(items, k - 1);
    }
  }

  lemma WholeLength(items: seq<Item>, k: nat)
    requires k < |items|
    ensures |Whole(items, k + 1)| == |Whole(items, k)| + SeparatorLength(k) + |Block(items[k])|
  {
    WholeGrows(items, k);
    assert CompleteBlocks(items, 0) == [];
  }

  lemma {:induction false} ReachGrows(items: seq<Item>, j: nat, k: nat)
    requires j <= k <= |items|
    ensures Reach(items, j) <= Reach(items, k)
    decreases k
  {
    if j < k {
      ReachGrows(items, j, k - 1);
    }
  }

  // ---------------------------------------------------------------- the agents' packer

  /** There is room for the header of item k and at least one more character. */
  predicate HeaderFits(items: seq<Item>, k: nat, budget: int)
    requires k < |items|
  {
    Reach(items, k) + SeparatorLength(k) + |items[k].header| < budget
  }

  function AdmittedFrom(items: seq<Item>, budget: int, k: nat): (n: nat)
    requires k <= |items|
    ensures k <= n <= |items|
    ensures forall i :: k <= i < n ==> HeaderFits(items, i, budget)
    ensures n < |items| ==> !HeaderFits(items, n, budget)
    decreases |items| - k
  {
    if k < |items| && HeaderFits(items, k, budget) then AdmittedFrom(items, budget, k + 1) else k
  }

  /** How many items get a header into the context. */
  function AdmittedCount(items: seq<Item>, budget: int): (n: nat)
    ensures n <= |items|
    ensures forall i :: 0 <= i < n ==> HeaderFits(items, i, budget)
    ensures n < |items| ==> !HeaderFits(items, n, budget)
  {
    AdmittedFrom(items, budget, 0)
  }

  function Room(items: seq<Item>, k: nat, budget: int): int
    requires k < |items|
  {
    budget - Reach(items, k) - SeparatorLength(k) - |items[k].header|
  }

  function BlockAt(items: seq<Item>, k: nat, budget: int): string
    requires k < |items| && HeaderFits(items, k, budget)
  {
    items[k].header + items[k].content[..Min(|items[k].content|, Room(items, k, budget))]
  }

  function PackedBlocks(items: seq<Item>, budget: int): (blocks: seq<string>)
    ensures |blocks| == AdmittedCount(items, budget)
  {
    seq(AdmittedCount(items, budget), k requires 0 <= k < AdmittedCount(items, budget) => BlockAt(items, k, budget))
  }

  /** Room for a later header means that every earlier item is complete. */
  lemma EarlierItemsAreComplete(items: seq<Item>, k: nat, budget: int)
    requires k + 1 < |items| && HeaderFits(items, k + 1, budget)
    ensures HeaderFits(items, k, budget)
    ensures Reach(items, k + 1) < budget && BlockAt(items, k, budget) == Block(items[k])
  {
  }

  /** An item is admitted exactly when its header and one more character fit after all earlier items in full. */
  lemma {:induction false} AdmittedIsMaximal(items: seq<Item>, k: nat, budget: int)
    requires k < |items|
    ensures HeaderFits(items, k, budget) <==> k < AdmittedCount(items, budget)
    ensures k < AdmittedCount(items, budget) <==>
            |Whole(items, k)| + (if k == 0 then 0 else |"\n\n"|) + |items[k].header| + 1 <= budget
    decreases |items| - k
  {
    ReachIsLength(items, k);
    var n := AdmittedCount(items, budget);
    if HeaderFits(items, k, budget) && n <= k {
      FitsDownTo(items, n, k, budget);
    }
  }

  lemma {:induction false} FitsDownTo(items: seq<Item>, j: nat, k: nat, budget: int)
    requires j <= k < |items| && HeaderFits(items, k, budget)
    ensures HeaderFits(items, j, budget)
    decreases k
  {
    if j < k {
      EarlierItemsAreComplete(items, k - 1, budget);
      FitsDownTo(items, j, k - 1, budget);
    }
  }

  /**
   The packed text is the first `budget` characters of the admitted items joined in full: only the
   last block can be cut, the ceiling is never passed, and it is met exactly when something is cut.
   */
  lemma PackedTextIsATruncation(items: seq<Item>, budget: int)
    ensures var n := AdmittedCount(items, budget);
            Join(PackedBlocks(items, budget), SEPARATOR) ==
            if n == 0 then "" else Whole(items, n)[..Min(|Whole(items, n)|, Max(budget, 0))]
  {
    var n := AdmittedCount(items, budget);
    if n > 0 {
      LastBlockCloses(items, budget);
      WholeIsCut(items, n - 1, budget);
    }
  }

  /** What stands before the block of item k when all earlier items are complete. */
  function Lead(items: seq<Item>, k: nat): string
    requires k <= |items|
  {
    if k == 0 then "" else Whole(items, k) + SEPARATOR
  }

  lemma LastBlockCloses(items: seq<Item>, budget: int)
    requires AdmittedCount(items, budget) > 0
    ensures var last := AdmittedCount(items, budget) - 1;
            Join(PackedBlocks(items, budget), SEPARATOR) == Lead(items, last) + BlockAt(items, last, budget)
  {
    var last := AdmittedCount(items, budget) - 1;
    CompletePrefix(items, budget, last);
    assert PackedBlocks(items, budget)[..last] == CompleteBlocks(items, last);
    JoinLast(PackedBlocks(items, budget), CompleteBlocks(items, last), BlockAt(items, last, budget));
  }

  lemma JoinLast(blocks: seq<string>, front: seq<string>, last: string)
    requires |blocks| == |front| + 1 && blocks[..|front|] == front && blocks[|front|] == last
    ensures Join(blocks, SEPARATOR) == (if front == [] then "" else Join(front, SEPARATOR) + SEPARATOR) + last
  {
  }

  lemma WholeIsCut(items: seq<Item>, k: nat, budget: int)
    requires k < |items| && HeaderFits(items, k, budget)
    ensures var full := Whole(items, k + 1);
            full[..Min(|full|, budget)] == Lead(items, k) + BlockAt(items, k, budget)
  {
    WholeGrows(items, k);
    ReachIsLength(items, k);
    CutLastBlock(if k == 0 then "" else Whole(items, k), items[k], k, budget, Room(items, k, budget));
  }

  lemma CompletePrefix(items: seq<Item>, budget: int, k: nat)
    requires k < AdmittedCount(items, budget)
    ensures forall i :: 0 <= i < k ==> PackedBlocks(items, budget)[i] == Block(items[i])
    ensures k > 0 ==> Reach(items, k) < budget
  {
    forall i | 0 <= i < k ensures PackedBlocks(items, budget)[i] == Block(items[i]) {
      EarlierItemsAreComplete(items, i, budget);
    }
    if k > 0 {
      EarlierItemsAreComplete(items, k - 1, budget);
    }
  }

  lemma CutLastBlock(done: string, it: Item, k: nat, budget: int, room: int)
    requires 0 < room == budget - |done| - SeparatorLength(k) - |it.header| && (k == 0 ==> done == "")
    ensures var lead := if k == 0 then "" else done + SEPARATOR;
            var full := lead + Block(it);
            full[..Min(|full|, budget)] == lead + (it.header + it.content[..Min(|it.content|, room)])
  {
    var lead := if k == 0 then "" else done + SEPARATOR;
    var cut := Min(|it.content|, room);
    assert it.content == it.content[..cut] + it.content[cut..];
    assert lead + Block(it) == (lead + (it.header + it.content[..cut])) + it.content[cut..];
  }

  /** A larger budget admits at least the same items. */
  lemma AdmissionIsMonotone(items: seq<Item>, small: int, large: int)
    requires small <= large
    ensures AdmittedCount(items, small) <= AdmittedCount(items, large)
  {
    var n := AdmittedCount(items, small);
    if n > 0 {
      assert HeaderFits(items, n - 1, small);
      assert HeaderFits(items, n - 1, large);
      AdmittedIsMaximal(items, n - 1, large);
    }
  }

  /** One block within the remaining room, and whether its content was cut. */
  method FillBlock(it: Item, remaining: int) returns (block: string, cut: bool)
    requires |it.header| < remaining
    ensures block == it.header + it.content[..Min(|it.content|, remaining - |it.header|)]
    ensures cut <==> |Block(it)| > remaining
    ensures if cut then |block| == remaining else block == Block(it)
  {
    var contentBudget := remaining - |it.header|;
    var content := it.content[..Min(|it.content|, contentBudget)];
    return it.header + content, |content| < |it.content|;
  }

  /** The packing loop with its running length counter. */
  method PackTruncating(items: seq<Item>, budget: int) returns (blocks: seq<string>, length: nat)
    ensures blocks == PackedBlocks(items, budget)
    ensures length == |Join(blocks, SEPARATOR)| <= Max(budget, 0)
  {
    blocks, length := [], 0;
    var k := 0;
    while k < |items|
      invariant 0 <= k <= AdmittedCount(items, budget)
      invariant blocks == CompleteBlocks(items, k)
      invariant length == Reach(items, k) && (k > 0 ==> length <= budget)
    {
      var it := items[k];
      var separator := if blocks != [] then 2 else 0;
      var remaining := budget - length - separator;
      if remaining <= |it.header| {
        break;
      }
      var block, cut := FillBlock(it, remaining);
      blocks := blocks + [block];
      length := length + |block| + separator;
      AdmittedIsMaximal(items, k, budget);
      if cut {
        CutEnds(items, k, budget);
        return;
      }
      CompleteGrows(items, k);
      k := k + 1;
    }
    EndsComplete(items, k, budget);
  }

  lemma CompleteGrows(items: seq<Item>, k: nat)
    requires k < |items|
    ensures CompleteBlocks(items, k + 1) == CompleteBlocks(items, k) + [Block(items[k])]
  {
  }

  lemma CompleteUpTo(items: seq<Item>, k: nat, budget: int)
    requires k <= AdmittedCount(items, budget) && (k > 0 ==> Reach(items, k) <= budget)
    ensures CompleteBlocks(items, k) == PackedBlocks(items, budget)[..k]
  {
    forall i | 0 <= i < k ensures PackedBlocks(items, budget)[i] == Block(items[i]) {
      ReachGrows(items, i + 1, k);
      assert BlockAt(items, i, budget) == Block(items[i]);
    }
  }

  lemma EndsComplete(items: seq<Item>, k: nat, budget: int)
    requires k <= AdmittedCount(items, budget) && (k > 0 ==> Reach(items, k) <= budget)
    requires k < |items| ==> !HeaderFits(items, k, budget)
    ensures CompleteBlocks(items, k) == PackedBlocks(items, budget)
    ensures Reach(items, k) == |Join(PackedBlocks(items, budget), SEPARATOR)|
  {
    if k < |items| {
      AdmittedIsMaximal(items, k, budget);
    }
    CompleteUpTo(items, k, budget);
    PackedLength(items, budget);
  }

  lemma EndsWithACut(items: seq<Item>, k: nat, budget: int)
    requires k < |items| && AdmittedCount(items, budget) == k + 1 && (k > 0 ==> Reach(items, k) <= budget)
    ensures CompleteBlocks(items, k) + [BlockAt(items, k, budget)] == PackedBlocks(items, budget)
  {
    CompleteUpTo(items, k, budget);
    var blocks := PackedBlocks(items, budget);
    assert |blocks| == k + 1 && blocks[k] == BlockAt(items, k, budget);
    assert blocks == blocks[..k] + [blocks[k]];
  }

  lemma CutEnds(items: seq<Item>, k: nat, budget: int)
    requires k < |items| && HeaderFits(items, k, budget) && (k > 0 ==> Reach(items, k) <= budget)
    requires Room(items, k, budget) < |items[k].content|
    ensures CompleteBlocks(items, k) + [BlockAt(items, k, budget)] == PackedBlocks(items, budget)
    ensures |Join(PackedBlocks(items, budget), SEPARATOR)| == budget
  {
    CutIsLast(items, k, budget);
    EndsWithACut(items, k, budget);
    PackedLength(items, budget);
  }

  lemma CutIsLast(items: seq<Item>, k: nat, budget: int)
    requires k < |items| && HeaderFits(items, k, budget) && Room(items, k, budget) < |items[k].content|
    ensures AdmittedCount(items, budget) == k + 1 && Reach(items, k + 1) > budget
  {
    AdmittedIsMaximal(items, k, budget);
    if k + 1 < |items| {
      AdmittedIsMaximal(items, k + 1, budget);
    }
  }

  lemma PackedLength(items: seq<Item>, budget: int)
    ensures var n := AdmittedCount(items, budget);
            |Join(PackedBlocks(items, budget), SEPARATOR)| == if n == 0 then 0 else Min(Reach(items, n), budget)
  {
    PackedTextIsATruncation(items, budget);
    var n := AdmittedCount(items, budget);
    ReachIsLength(items, n);
    if n > 0 {
      assert HeaderFits(items, n - 1, budget);
    }
  }

  /** Each packed block is its item's header and content, whole; only the last one's content may be cut. */
  lemma PackedBlocksAreTheirItems(items: seq<Item>, budget: int, k: nat)
    requires k < AdmittedCount(items, budget)
    ensures var block := PackedBlocks(items, budget)[k];
            || block == items[k].header + items[k].content
            || (k + 1 == AdmittedCount(items, budget) && |Join(PackedBlocks(items, budget), SEPARATOR)| == budget
                && exists c :: 0 < c < |items[k].content| && block == items[k].header + items[k].content[..c])
  {
    if k + 1 < AdmittedCount(items, budget) {
      EarlierItemsAreComplete(items, k, budget);
    } else if Room(items, k, budget) < |items[k].content| {
      CutIsLast(items, k, budget);
      PackedLength(items, budget);
      assert HeaderFits(items, k, budget) && 0 < Room(items, k, budget);
    } else {
      assert items[k].content[..|items[k].content|] == items[k].content;
    }
  }

  // ---------------------------------------------------------------- the answer packer

  /** The greatest number of complete items within the budget. */
  function WholeFrom(items: seq<Item>, budget: int, k: nat): (n: nat)
    requires k <= |items|
    ensures k <= n <= |items|
    ensures n > k ==> Reach(items, n) <= budget
    ensures n < |items| ==> Reach(items, n + 1) > budget
    decreases |items| - k
  {
    if k < |items| && Reach(items, k + 1) <= budget then WholeFrom(items, budget, k + 1) else k
  }

  function WholeCount(items: seq<Item>, budget: int): (n: nat)
    ensures n <= |items|
    ensures n > 0 ==> Reach(items, n) <= budget
    ensures n < |items| ==> Reach(items, n + 1) > budget
  {
    WholeFrom(items, budget, 0)
  }

  /** The number of sources shown: complete ones, or a single cut one when not even one is complete. */
  function SourceCount(items: seq<Item>, budget: int): (m: nat)
    ensures m <= |items|
  {
    if WholeCount(items, budget) > 0 then WholeCount(items, budget)
    else if items != [] && |items[0].header| <= budget then 1
    else 0
  }

  /** The blocks shown for them. */
  function SourceBlocks(items: seq<Item>, budget: int): (blocks: seq<string>)
    ensures |blocks| == SourceCount(items, budget)
  {
    var m := SourceCount(items, budget);
    if WholeCount(items, budget) > 0 || m == 0 then CompleteBlocks(items, m)
    else [Block(items[0])[..Min(|Block(items[0])|, budget)]]
  }

  /** The text shown for them. */
  function SourceText(items: seq<Item>, budget: int): string {
    Join(SourceBlocks(items, budget), SEPARATOR)
  }

  /** Each block is its item's header, whole, and its content: whole too, unless it is the only block. */
  lemma SourceBlocksAreTheirItems(items: seq<Item>, budget: int, k: nat)
    requires k < SourceCount(items, budget)
    ensures SourceBlocks(items, budget)[k] == items[k].header + items[k].content
            || (SourceCount(items, budget) == 1 && |items[0].header| <= budget < |items[0].header + items[0].content|
                && SourceBlocks(items, budget)[k] ==
                   items[0].header + items[0].content[..budget - |items[0].header|])
  {
    if WholeCount(items, budget) == 0 {
      var it := items[0];
      assert Block(it)[..Min(|Block(it)|, budget)] == it.header + it.content[..Min(|it.content|, budget - |it.header|)];
      WholeIsMaximal(items, 1, budget);
      assert Reach(items, 1) == |Block(it)|;
    }
  }

  // ---------------------------------------------------------------- where a block stands

  /** What a joined text holds before its k-th part: nothing, or the earlier parts and two line feeds. */
  function BeforeBlock(blocks: seq<string>, k: nat): string
    requires k < |blocks|
  {
    if k == 0 then "" else Join(blocks[..k], "\n\n") + "\n\n"
  }

  ghost predicate StandsIn(text: string, before: string, block: string) {
    before + block <= text && (|text| == |before + block| || before + block + "\n\n" <= text)
  }

  /** Every block stands in the joined text, after the earlier ones and before two line feeds or the end. */
  lemma {:induction false} BlockStandsInText(blocks: seq<string>, k: nat)
    requires k < |blocks|
    ensures StandsIn(Join(blocks, SEPARATOR), BeforeBlock(blocks, k), blocks[k])
    decreases |blocks|
  {
    var n := |blocks| - 1;
    if k < n {
      BlockStandsInText(blocks[..n], k);
      assert blocks[..n][..k] == blocks[..k];
    }
  }

  /** Maximality: k complete items fit exactly when the packer takes at least k of them. */
  lemma WholeIsMaximal(items: seq<Item>, k: nat, budget: int)
    requires 0 < k <= |items|
    ensures Reach(items, k) <= budget <==> k <= WholeCount(items, budget)
  {
    var n := WholeCount(items, budget);
    if k <= n {
      ReachGrows(items, k, n);
    } else {
      ReachGrows(items, n + 1, k);
    }
  }

  /** The packing loop of the answer service and of candidate extraction. */
  method PackComplete(items: seq<Item>, budget: int) returns (blocks: seq<string>, length: nat)
    ensures blocks == SourceBlocks(items, budget)
    ensures length == |Join(blocks, SEPARATOR)| <= Max(budget, 0)
    ensures forall i :: 0 <= i < |blocks| && (|blocks| > 1 || WholeCount(items, budget) > 0) ==>
              blocks[i] == Block(items[i])
    ensures |blocks| == 1 ==> blocks[0] <= Block(items[0])
  {
    blocks, length := [], 0;
    var k := 0;
    while k < |items|
      invariant 0 <= k <= |items| && k == |blocks| <= WholeCount(items, budget)
      invariant blocks == CompleteBlocks(items, k)
      invariant length == Reach(items, k) && (k > 0 ==> length <= budget)
    {
      var it := items[k];
      var separator := if blocks != [] then 2 else 0;
      var remaining := budget - length - separator;
      if remaining < |it.header| {
        break;
      }
      WholeIsMaximal(items, k + 1, budget);
      var contentBudget := remaining - |it.header|;
      if |it.content| <= contentBudget {
        blocks := blocks + [it.header + it.content];
        length := length + |it.header + it.content| + separator;
        CompleteGrows(items, k);
      } else if blocks == [] {
        var block := it.header + it.content[..contentBudget];
        blocks := [block];
        length := length + |block| + separator;
        FirstIsCut(items, budget, block);
        return;
      } else {
        break;
      }
      k := k + 1;
    }
    EndsWithWhole(items, k, budget);
  }

  lemma FirstIsCut(items: seq<Item>, budget: int, block: string)
    requires items != [] && WholeCount(items, budget) == 0
    requires 0 <= budget - |items[0].header| < |items[0].content|
    requires block == items[0].header + items[0].content[..budget - |items[0].header|]
    ensures SourceCount(items, budget) == 1 && SourceBlocks(items, budget) == [block]
    ensures Join([block], SEPARATOR) == block && |block| == budget && block <= Block(items[0])
  {
    var it := items[0];
    assert it.content == it.content[..budget - |it.header|] + it.content[budget - |it.header|..];
    assert Block(it) == block + it.content[budget - |it.header|..];
  }

  lemma EndsWithWhole(items: seq<Item>, k: nat, budget: int)
    requires k <= WholeCount(items, budget)
    requires k < |items| ==> Reach(items, k + 1) > budget
    requires k == 0 && items != [] ==> budget < |items[0].header|
    ensures SourceCount(items, budget) == k
    ensures SourceBlocks(items, budget) == CompleteBlocks(items, k)
    ensures |SourceText(items, budget)| == Reach(items, k)
  {
    if k < |items| {
      WholeIsMaximal(items, k + 1, budget);
    }
    ReachIsLength(items, k);
    assert Whole(items, k) == Join(CompleteBlocks(items, k), SEPARATOR);
  }
}
