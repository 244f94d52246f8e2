/** The block-list updaters of src/components/DocumentEditor.tsx: each takes
    the previous list and returns the next one, as the `setBlocks(prev => …)`
    callbacks do. */
module BlockStore {
  import opened Wrappers
  import opened Models

  /** The ids of `blocks`, in list order. */
  function Ids(blocks: seq<Block>): (r: seq<int>)
    ensures |r| == |blocks| && forall k | 0 <= k < |blocks| :: r[k] == blocks[k].id
  {
    seq(|blocks|, k requires 0 <= k < |blocks| => blocks[k].id)
  }

  /** No two blocks share an id. */
  predicate UniqueIds(blocks: seq<Block>) {
    forall i, j | 0 <= i < j < |blocks| :: blocks[i].id != blocks[j].id
  }

  /** How many blocks carry `id`. */
  function CountId(blocks: seq<Block>, id: int): nat {
    if blocks == [] then 0
    else (if blocks[0].id == id then 1 else 0) + CountId(blocks[1..], id)
  }

  lemma {:induction false} CountIdAppend(a: seq<Block>, b: seq<Block>, id: int)
    ensures CountId(a + b, id) == CountId(a, id) + CountId(b, id)
  {
    if a != [] {
      assert (a + b)[0] == a[0];
      assert (a + b)[1..] == a[1..] + b;
      CountIdAppend(a[1..], b, id);
    } else {
      assert a + b == b;
    }
  }

  lemma {:induction false} CountIdZero(blocks: seq<Block>, id: int)
    ensures CountId(blocks, id) == 0 <==> forall k | 0 <= k < |blocks| :: blocks[k].id != id
  {
    if blocks != [] {
      CountIdZero(blocks[1..], id);
      assert forall k | 1 <= k < |blocks| :: blocks[k] == blocks[1..][k - 1];
    }
  }

  /** `blocks.findIndex(b => b.id === id)`, with `None` for -1: the first
      block carrying `id`. */
  function FindIndex(blocks: seq<Block>, id: int): (r: Option<nat>)
    ensures r.Some? ==> r.value < |blocks| && blocks[r.value].id == id
    ensures forall k | 0 <= k < |blocks| && (r.None? || k < r.value) :: blocks[k].id != id
  {
    if blocks == [] then None
    else if blocks[0].id == id then Some(0)
    else match FindIndex(blocks[1..], id)
      case None => None
      case Some(i) => Some(i + 1)
  }

  /** `s` with `b` placed at position `i`. */
  function InsertAt(s: seq<Block>, i: nat, b: Block): (r: seq<Block>)
    requires i <= |s|
    ensures |r| == |s| + 1 && r[i] == b
    ensures RemoveAt(r, i) == s
  {
    var r := s[..i] + [b] + s[i..];
    assert RemoveAt(r, i) == s;
    r
  }

  /** `s` without its element at `i`. */
  function RemoveAt(s: seq<Block>, i: nat): seq<Block>
    requires i < |s|
  {
    s[..i] + s[i + 1..]
  }

  /** Where `ReceiveBlock` puts the new block: right after the focused block
      when it is in the list, otherwise at the end. */
  function ReceivePosition(prev: seq<Block>, activeId: Option<int>): (i: nat)
    ensures i <= |prev|
  {
    if activeId.Some? then
      match FindIndex(prev, activeId.value)
      case Some(index) => index + 1
      case None => |prev|
    else |prev|
  }

  /** The `ReceiveBlock` handler: insert `b` after the focused block, or
      append it. No check is made for a block with the same id. */
  function ReceiveBlock(prev: seq<Block>, activeId: Option<int>, b: Block): (r: seq<Block>)
    ensures |r| == |prev| + 1
  {
    InsertAt(prev, ReceivePosition(prev, activeId), b)
  }

  /** A received block lands right after the first block carrying the active
      id; the blocks up to that one and the blocks after it keep their places
      and order. */
  lemma ReceiveAfterActive(prev: seq<Block>, activeId: int, b: Block, i: nat)
    requires i < |prev| && prev[i].id == activeId
    requires forall k | 0 <= k < i :: prev[k].id != activeId
    ensures var r := ReceiveBlock(prev, Some(activeId), b);
      && |r| == |prev| + 1
      && r[i + 1] == b
      && r[..i + 1] == prev[..i + 1]
      && r[i + 2..] == prev[i + 1..]
      && RemoveAt(r, i + 1) == prev
  {
    assert FindIndex(prev, activeId) == Some(i);
  }

  /** With no focused block, or one that is not in the list, a received
      block is appended. */
  lemma ReceiveAppendsWithoutActive(prev: seq<Block>, activeId: Option<int>, b: Block)
    requires activeId.None? || forall k | 0 <= k < |prev| :: prev[k].id != activeId.value
    ensures ReceiveBlock(prev, activeId, b) == prev + [b]
  {
    assert prev[..|prev|] == prev;
  }

  /** Receiving a block adds one more block with its id, even when one is
      already there. */
  lemma {:induction false} ReceiveCountsId(prev: seq<Block>, activeId: Option<int>, b: Block)
    ensures CountId(ReceiveBlock(prev, activeId, b), b.id) == CountId(prev, b.id) + 1
  {
    var i := ReceivePosition(prev, activeId);
    assert prev == prev[..i] + prev[i..];
    CountIdAppend(prev[..i] + [b], prev[i..], b.id);
    CountIdAppend(prev[..i], [b], b.id);
    CountIdAppend(prev[..i], prev[i..], b.id);
    assert CountId([b], b.id) == 1 by {
      assert [b][1..] == [];
    }
  }

  /** Delivering a block whose id is already present leaves two blocks with
      that id: the handler does not de-duplicate. */
  lemma ReceiveDuplicateId(prev: seq<Block>, activeId: Option<int>, b: Block, k: nat)
    requires k < |prev| && prev[k].id == b.id
    ensures CountId(ReceiveBlock(prev, activeId, b), b.id) >= 2
  {
    ReceiveCountsId(prev, activeId, b);
    CountIdZero(prev, b.id);
  }

  /** Where each element of `s` sits after inserting at `i`. */
  lemma InsertAtIndex(s: seq<Block>, i: nat, b: Block, x: nat)
    requires i <= |s| && x < |s| + 1
    ensures InsertAt(s, i, b)[x] == if x < i then s[x] else if x == i then b else s[x - 1]
  {
    assert InsertAt(s, i, b) == s[..i] + [b] + s[i..];
  }

  /** Inserting a block whose id is present creates a duplicate. */
  lemma InsertAtPresentDuplicates(s: seq<Block>, i: nat, b: Block, k: nat)
    requires i <= |s| && k < |s| && s[k].id == b.id
    ensures !UniqueIds(InsertAt(s, i, b))
  {
    var r := InsertAt(s, i, b);
    var k' := if k < i then k else k + 1;
    InsertAtIndex(s, i, b, k');
    assert r[k'].id == r[i].id;
    if k' < i { assert 0 <= k' < i < |r|; } else { assert 0 <= i < k' < |r|; }
  }

  /** Inserting a block whose id is absent keeps unique ids unique. */
  lemma InsertAtAbsentKeepsUnique(s: seq<Block>, i: nat, b: Block)
    requires i <= |s| && UniqueIds(s)
    requires forall k | 0 <= k < |s| :: s[k].id != b.id
    ensures UniqueIds(InsertAt(s, i, b))
  {
    var r := InsertAt(s, i, b);
    forall x, y | 0 <= x < y < |r| ensures r[x].id != r[y].id {
      InsertAtIndex(s, i, b, x);
      InsertAtIndex(s, i, b, y);
    }
  }

  lemma InsertAtUniqueIff(s: seq<Block>, i: nat, b: Block)
    requires i <= |s| && UniqueIds(s)
    ensures UniqueIds(InsertAt(s, i, b)) <==> b.id !in Ids(s)
  {
    if b.id in Ids(s) {
      var k :| 0 <= k < |s| && Ids(s)[k] == b.id;
      InsertAtPresentDuplicates(s, i, b, k);
    } else {
      assert forall k | 0 <= k < |s| :: s[k].id != b.id by {
        forall k | 0 <= k < |s| ensures s[k].id != b.id {
          assert Ids(s)[k] == s[k].id;
        }
      }
      InsertAtAbsentKeepsUnique(s, i, b);
    }
  }

  /** Receiving keeps ids unique exactly when the new id is not yet present. */
  lemma ReceiveKeepsUniqueIff(prev: seq<Block>, activeId: Option<int>, b: Block)
    requires UniqueIds(prev)
    ensures UniqueIds(ReceiveBlock(prev, activeId, b)) <==> b.id !in Ids(prev)
  {
    InsertAtUniqueIff(prev, ReceivePosition(prev, activeId), b);
  }

  /** `prev.map(p => p.id === id ? f(p) : p)`. */
  function MapWhere(prev: seq<Block>, id: int, f: Block -> Block): (r: seq<Block>)
    ensures |r| == |prev|
    ensures forall k | 0 <= k < |prev| :: r[k] == if prev[k].id == id then f(prev[k]) else prev[k]
  {
    if prev == [] then []
    else [if prev[0].id == id then f(prev[0]) else prev[0]] + MapWhere(prev[1..], id, f)
  }

  /** The `BlockEdited` handler: every block with the incoming id is replaced
      by the incoming block as a whole. */
  function BlockEdited(prev: seq<Block>, b: Block): (r: seq<Block>)
    ensures |r| == |prev|
    ensures forall k | 0 <= k < |prev| && prev[k].id == b.id :: r[k] == b
    ensures forall k | 0 <= k < |prev| && prev[k].id != b.id :: r[k] == prev[k]
  {
    MapWhere(prev, b.id, _ => b)
  }

  /** A remote edit keeps the list's ids and their order. */
  lemma BlockEditedKeepsIds(prev: seq<Block>, b: Block)
    ensures Ids(BlockEdited(prev, b)) == Ids(prev)
  {
  }

  /** An edit for an id not in the list changes nothing; in particular it does
      not insert the block. */
  lemma BlockEditedUnknownIsNoOp(prev: seq<Block>, b: Block)
    requires b.id !in Ids(prev)
    ensures BlockEdited(prev, b) == prev
  {
    var r := BlockEdited(prev, b);
    forall k | 0 <= k < |prev| ensures r[k] == prev[k] {
      assert Ids(prev)[k] == prev[k].id;
    }
  }

  /** The local change handler's updater: only `text` of the blocks with the
      given id changes. */
  function LocalEdit(prev: seq<Block>, id: int, text: string): (r: seq<Block>)
    ensures |r| == |prev|
    ensures forall k | 0 <= k < |prev| :: r[k].text == (if prev[k].id == id then text else prev[k].text)
    ensures forall k | 0 <= k < |prev| :: r[k] == prev[k].(text := r[k].text)
  {
    MapWhere(prev, id, (p: Block) => p.(text := text))
  }

  /** A local edit keeps the list's ids and their order. */
  lemma LocalEditKeepsIds(prev: seq<Block>, id: int, text: string)
    ensures Ids(LocalEdit(prev, id, text)) == Ids(prev)
  {
  }

  /** A local edit for an unknown id changes nothing. */
  lemma LocalEditUnknownIsNoOp(prev: seq<Block>, id: int, text: string)
    requires id !in Ids(prev)
    ensures LocalEdit(prev, id, text) == prev
  {
    var r := LocalEdit(prev, id, text);
    forall k | 0 <= k < |prev| ensures r[k] == prev[k] {
      assert Ids(prev)[k] == prev[k].id;
    }
  }

  /** `blocks.find(b => b.id === id)?.text ?? ''`. */
  function TextOf(blocks: seq<Block>, id: int): (t: string)
    ensures id !in Ids(blocks) ==> t == ""
    ensures id in Ids(blocks) ==> exists k | 0 <= k < |blocks| ::
      && blocks[k].id == id && t == blocks[k].text
      && forall j | 0 <= j < k :: blocks[j].id != id
  {
    match FindIndex(blocks, id)
    case None => ""
    case Some(i) => blocks[i].text
  }
}
