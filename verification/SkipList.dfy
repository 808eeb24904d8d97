/** The skip list behind a memtable (db/skiplist.h): one writer links a node level by
    level while readers walk the list.  Every store and every read of a link is a step. */
module SkipLists {
  import opened Keys

  const MAX_HEIGHT := 12

  /** A node in the arena; the length of `next` is the node's height. */
  datatype Node = Node(entry: Entry, next: seq<Option<nat>>)

  const HEAD: nat := 0

  // ------------------------------------------------------------------ the lists

  function After(list: seq<nat>, i: nat): Option<nat> {
    if i + 1 < |list| then Some(list[i + 1]) else None
  }

  /** `list` is the linked list of a level from the head on, sorted by entry. */
  ghost predicate Linked(nodes: seq<Node>, level: nat, list: seq<nat>) {
    && list != [] && list[0] == HEAD
    && (forall i :: 0 <= i < |list| ==> list[i] < |nodes| && level < |nodes[list[i]].next|)
    && (forall i :: 0 <= i < |list| ==> nodes[list[i]].next[level] == After(list, i))
    && (forall i, j :: 0 < i < j < |list| ==> Less(nodes[list[i]].entry.key, nodes[list[j]].entry.key))
    && (forall i :: 0 < i < |list| ==> list[i] != HEAD)
  }

  /** Every level is a linked list, and each is a sublist of the level below it. */
  ghost predicate ListsOk(nodes: seq<Node>, levels: seq<seq<nat>>, maxHeight: nat) {
    && |levels| == MAX_HEIGHT && 1 <= maxHeight <= MAX_HEIGHT
    && (forall l :: 0 <= l < MAX_HEIGHT ==> Linked(nodes, l, levels[l]))
    && (forall l, m, x :: 0 <= l < m < MAX_HEIGHT && x in levels[m] ==> x in levels[l])
    && (forall l :: maxHeight <= l < MAX_HEIGHT ==> levels[l] == [HEAD])
  }

  /** The entries of a level, in order. */
  ghost function EntriesOf(nodes: seq<Node>, list: seq<nat>): seq<Entry>
    requires list != [] && forall i :: 0 <= i < |list| ==> list[i] < |nodes|
  {
    seq(|list| - 1, i requires 0 <= i < |list| - 1 => nodes[list[i + 1]].entry)
  }

  lemma EntriesSorted(nodes: seq<Node>, level: nat, list: seq<nat>)
    requires Linked(nodes, level, list)
    ensures Sorted(EntriesOf(nodes, list))
  {
  }

  // ------------------------------------------------------------------ searching

  /** What a search walks past: everything before a key, or everything. */
  datatype Goal = Until(key: InternalKey) | ToEnd

  predicate Passes(goal: Goal, e: Entry) {
    goal.ToEnd? || Less(e.key, goal.key)
  }

  /** In a level, `x` is the last node that the search walks past, and `next` follows it. */
  ghost predicate Splits(nodes: seq<Node>, list: seq<nat>, goal: Goal, x: nat, next: Option<nat>) {
    && (forall i :: 0 <= i < |list| ==> list[i] < |nodes|)
    && exists i :: 0 <= i < |list| && list[i] == x
                   && next == After(list, i)
                   && (forall j :: 0 < j <= i ==> Passes(goal, nodes[list[j]].entry))
                   && (forall j :: i < j < |list| ==> !Passes(goal, nodes[list[j]].entry))
  }

  /** A node on the level that is walked past, with a next one that is not, splits the level. */
  lemma SplitAt(nodes: seq<Node>, level: nat, list: seq<nat>, goal: Goal, x: nat)
    requires Linked(nodes, level, list) && x in list
    requires x != HEAD ==> Passes(goal, nodes[x].entry)
    requires var next := nodes[x].next[level]; next.Some? ==> next.value < |nodes| && !Passes(goal, nodes[next.value].entry)
    ensures Splits(nodes, list, goal, x, nodes[x].next[level])
  {
    hide Less, Passes;
    var i :| 0 <= i < |list| && list[i] == x;
    forall j | 0 < j <= i
      ensures Passes(goal, nodes[list[j]].entry)
    {
      if j < i {
        PassesInOrder(goal, nodes[list[j]].entry, nodes[list[i]].entry);
      }
    }
    forall j | i < j < |list|
      ensures !Passes(goal, nodes[list[j]].entry)
    {
      if i + 1 < j {
        PassesInOrder(goal, nodes[list[i + 1]].entry, nodes[list[j]].entry);
      }
    }
  }

  /** What comes before an entry that is walked past is walked past too. */
  lemma PassesInOrder(goal: Goal, a: Entry, b: Entry)
    requires Less(a.key, b.key)
    ensures Passes(goal, b) ==> Passes(goal, a)
  {
  }

  lemma SplitIndex(nodes: seq<Node>, list: seq<nat>, goal: Goal, x: nat, next: Option<nat>) returns (i: nat)
    requires Splits(nodes, list, goal, x, next)
    ensures i < |list| && list[i] == x && next == After(list, i)
    ensures forall j :: 0 <= j < |list| ==> list[j] < |nodes|
    ensures forall j :: 0 < j <= i ==> Passes(goal, nodes[list[j]].entry)
    ensures forall j :: i < j < |list| ==> !Passes(goal, nodes[list[j]].entry)
  {
    i :| 0 <= i < |list| && list[i] == x
         && next == After(list, i)
         && (forall j :: 0 < j <= i ==> Passes(goal, nodes[list[j]].entry))
         && (forall j :: i < j < |list| ==> !Passes(goal, nodes[list[j]].entry));
  }

  lemma PlaceIsLowerBound(nodes: seq<Node>, list: seq<nat>, key: InternalKey, i: nat)
    requires i < |list| && forall j :: 0 <= j < |list| ==> list[j] < |nodes|
    requires forall j :: 0 < j <= i ==> Less(nodes[list[j]].entry.key, key)
    requires forall j :: i < j < |list| ==> !Less(nodes[list[j]].entry.key, key)
    ensures LowerBound(EntriesOf(nodes, list), key) == i
  {
    hide Less;
    var es := EntriesOf(nodes, list);
    forall j | 0 <= j < i
      ensures Less(es[j].key, key)
    {
      assert es[j] == nodes[list[j + 1]].entry;
    }
    assert i < |es| ==> es[i] == nodes[list[i + 1]].entry;
    LowerBoundIs(es, key, i);
  }

  /** A split at a key is the lower bound of the key among the entries. */
  lemma SplitIsLowerBound(nodes: seq<Node>, level: nat, list: seq<nat>, key: InternalKey, x: nat, next: Option<nat>)
    requires Linked(nodes, level, list) && Splits(nodes, list, Until(key), x, next)
    ensures var es, n := EntriesOf(nodes, list), LowerBound(EntriesOf(nodes, list), key);
            && (next.None? <==> n == |es|)
            && (next.Some? ==> next.value < |nodes| && nodes[next.value].entry == es[n])
            && (x == HEAD <==> n == 0)
            && (x != HEAD ==> x < |nodes| && nodes[x].entry == es[n - 1])
  {
    var i := SplitIndex(nodes, list, Until(key), x, next);
    PlaceIsLowerBound(nodes, list, key, i);
    hide Splits, Less, LowerBound;
  }

  // ------------------------------------------------------------------ a reader

  /** A search in progress: it has walked up to node `x` on a level; at the end it knows
      the node that follows. */
  datatype Reader = Reader(goal: Goal, x: nat, level: nat, found: Option<Option<nat>>)

  /** The reader stands on a node of its level that it may walk past. */
  ghost predicate ReaderOk(nodes: seq<Node>, levels: seq<seq<nat>>, r: Reader) {
    && |levels| == MAX_HEIGHT && r.level < MAX_HEIGHT
    && r.x in levels[r.level] && r.x < |nodes|
    && (r.x != HEAD ==> Passes(r.goal, nodes[r.x].entry))
  }

  /** One read of a link: walk on, go down a level, or stop. */
  function Advance(nodes: seq<Node>, r: Reader): (r': Reader)
    requires r.x < |nodes| && r.level < |nodes[r.x].next|
    requires forall n :: nodes[r.x].next[r.level] == Some(n) ==> n < |nodes|
  {
    var next := nodes[r.x].next[r.level];
    if next.Some? && Passes(r.goal, nodes[next.value].entry) then r.(x := next.value)
    else if r.level == 0 then r.(found := Some(next))
    else r.(level := r.level - 1)
  }

  lemma ReaderCanRead(nodes: seq<Node>, levels: seq<seq<nat>>, maxHeight: nat, r: Reader)
    requires ListsOk(nodes, levels, maxHeight) && ReaderOk(nodes, levels, r)
    ensures r.level < |nodes[r.x].next|
    ensures forall n :: nodes[r.x].next[r.level] == Some(n) ==> n < |nodes| && n in levels[r.level] && n != HEAD
  {
    assert Linked(nodes, r.level, levels[r.level]);
    var i :| 0 <= i < |levels[r.level]| && levels[r.level][i] == r.x;
  }

  /** A read keeps the reader on its way; one that stops has found the place of the goal
      in the bottom list as it is at that moment. */
  lemma AdvanceOk(nodes: seq<Node>, levels: seq<seq<nat>>, maxHeight: nat, r: Reader)
    requires ListsOk(nodes, levels, maxHeight) && ReaderOk(nodes, levels, r) && r.found.None?
    ensures r.level < |nodes[r.x].next|
    ensures forall n :: nodes[r.x].next[r.level] == Some(n) ==> n < |nodes|
    ensures var r' := Advance(nodes, r);
            && ReaderOk(nodes, levels, r') && r'.goal == r.goal
            && (r'.found.Some? ==> Splits(nodes, levels[0], r.goal, r'.x, r'.found.value))
  {
    ReaderCanRead(nodes, levels, maxHeight, r);
    hide Linked, Splits;
    var r' := Advance(nodes, r);
    if r'.found.Some? {
      SplitAt(nodes, 0, levels[0], r.goal, r.x);
    }
  }

  /** A read brings the search forward: along the level, down to the next one, or to its end. */
  ghost predicate Forward(levels: seq<seq<nat>>, r: Reader, r': Reader)
    requires r.level < |levels|
  {
    || (r' == r.(found := r'.found) && r'.found.Some? && r.level == 0)
    || (r.level > 0 && r' == r.(level := r.level - 1))
    || (r' == r.(x := r'.x) && exists i :: NextTo(levels[r.level], i, r.x, r'.x))
  }

  predicate NextTo(list: seq<nat>, i: nat, x: nat, y: nat) {
    i + 1 < |list| && list[i] == x && list[i + 1] == y
  }

  lemma AdvanceForward(nodes: seq<Node>, levels: seq<seq<nat>>, maxHeight: nat, r: Reader)
    requires ListsOk(nodes, levels, maxHeight) && ReaderOk(nodes, levels, r) && r.found.None? && r.level < |nodes[r.x].next|
    requires forall n :: nodes[r.x].next[r.level] == Some(n) ==> n < |nodes|
    ensures Forward(levels, r, Advance(nodes, r))
  {
    assert Linked(nodes, r.level, levels[r.level]);
    var i :| 0 <= i < |levels[r.level]| && levels[r.level][i] == r.x;
    var r' := Advance(nodes, r);
    if r'.x != r.x {
      assert NextTo(levels[r.level], i, r.x, r'.x);
    } else if r'.found.None? && r'.level == r.level {
      assert NextTo(levels[r.level], i, r.x, r'.x);
    }
  }

  // ------------------------------------------------------------------ the writer

  /** An insertion in progress: the node, its predecessors on its levels, the number of
      levels where it is linked, and whether its link on the next level is set. */
  datatype Insertion = Insertion(node: nat, prev: seq<nat>, linked: nat, prepared: bool)

  ghost predicate Before(nodes: seq<Node>, list: seq<nat>, level: nat, key: InternalKey, x: nat) {
    x in list && x < |nodes| && level < |nodes[x].next| && Splits(nodes, list, Until(key), x, nodes[x].next[level])
  }

  /** No other entry of the list is in the same place. */
  ghost predicate NewEntry(nodes: seq<Node>, list: seq<nat>, node: nat) {
    && node < |nodes|
    && forall x :: x in list && x != HEAD && x != node ==>
         x < |nodes| && (Less(nodes[x].entry.key, nodes[node].entry.key) || Less(nodes[node].entry.key, nodes[x].entry.key))
  }

  ghost predicate InsertionOk(nodes: seq<Node>, levels: seq<seq<nat>>, maxHeight: nat, ins: Insertion) {
    && |levels| == MAX_HEIGHT && ins.node < |nodes| && ins.node != HEAD
    && ins.linked < |ins.prev| == |nodes[ins.node].next| && |ins.prev| <= maxHeight <= MAX_HEIGHT
    && NewEntry(nodes, levels[0], ins.node)
    && (forall l :: 0 <= l < ins.linked ==> ins.node in levels[l])
    && (forall l :: ins.linked <= l < MAX_HEIGHT ==> ins.node !in levels[l])
    && (forall l :: ins.linked <= l < |ins.prev| ==> Before(nodes, levels[l], l, nodes[ins.node].entry.key, ins.prev[l]))
    && (ins.prepared ==> nodes[ins.node].next[ins.linked] == nodes[ins.prev[ins.linked]].next[ins.linked])
  }

  function SetNext(nodes: seq<Node>, x: nat, level: nat, next: Option<nat>): (r: seq<Node>)
    requires x < |nodes| && level < |nodes[x].next|
    ensures |r| == |nodes|
    ensures forall y :: 0 <= y < |nodes| ==> r[y].entry == nodes[y].entry && |r[y].next| == |nodes[y].next|
    ensures forall y, l :: 0 <= y < |nodes| && 0 <= l < |nodes[y].next| && !(y == x && l == level) ==>
              r[y].next[l] == nodes[y].next[l]
    ensures r[x].next[level] == next
  {
    nodes[x := nodes[x].(next := nodes[x].next[level := next])]
  }

  /** A store to a link that is not on the list's level, or of a node not on the list, leaves the list. */
  lemma LinkedStays(nodes: seq<Node>, x: nat, level: nat, next: Option<nat>, l: nat, list: seq<nat>)
    requires x < |nodes| && level < |nodes[x].next| && Linked(nodes, l, list)
    requires l != level || x !in list
    ensures Linked(SetNext(nodes, x, level, next), l, list)
  {
    hide SetNext;
    var nodes' := SetNext(nodes, x, level, next);
    forall i | 0 <= i < |list|
      ensures nodes'[list[i]].next[l] == After(list, i)
    {
      assert list[i] in list;
    }
  }

  lemma SplitsStays(nodes: seq<Node>, x: nat, level: nat, next: Option<nat>, list: seq<nat>, goal: Goal, y: nat, after: Option<nat>)
    requires x < |nodes| && level < |nodes[x].next| && Splits(nodes, list, goal, y, after)
    ensures Splits(SetNext(nodes, x, level, next), list, goal, y, after)
  {
    hide SetNext;
  }

  /** The writer sets the new node's link on the next level; no list changes. */
  lemma PrepareKeeps(nodes: seq<Node>, levels: seq<seq<nat>>, maxHeight: nat, ins: Insertion)
    requires ListsOk(nodes, levels, maxHeight) && InsertionOk(nodes, levels, maxHeight, ins)
    ensures var nodes' := SetNext(nodes, ins.node, ins.linked, nodes[ins.prev[ins.linked]].next[ins.linked]);
            ListsOk(nodes', levels, maxHeight) && InsertionOk(nodes', levels, maxHeight, ins.(prepared := true))
  {
    hide Linked, Splits, SetNext, Less;
    var l0, next := ins.linked, nodes[ins.prev[ins.linked]].next[ins.linked];
    var nodes' := SetNext(nodes, ins.node, l0, next);
    forall l | 0 <= l < MAX_HEIGHT
      ensures Linked(nodes', l, levels[l])
    {
      LinkedStays(nodes, ins.node, l0, next, l, levels[l]);
    }
    forall l | l0 <= l < |ins.prev|
      ensures Before(nodes', levels[l], l, nodes[ins.node].entry.key, ins.prev[l])
    {
      assert Before(nodes, levels[l], l, nodes[ins.node].entry.key, ins.prev[l]);
      assert ins.prev[l] != ins.node;
      SplitsStays(nodes, ins.node, l0, next, levels[l], Until(nodes[ins.node].entry.key), ins.prev[l], nodes[ins.prev[l]].next[l]);
    }
  }

  function InsertAfter(list: seq<nat>, i: nat, node: nat): (r: seq<nat>)
    requires i < |list|
    ensures |r| == |list| + 1
  {
    list[..i + 1] + [node] + list[i + 1..]
  }

  /** The entry of the node belongs after the i-th node of the list. */
  ghost predicate Belongs(nodes: seq<Node>, list: seq<nat>, node: nat, i: nat) {
    && node < |nodes| && i < |list|
    && (forall j :: 0 < j <= i ==> list[j] < |nodes| && Less(nodes[list[j]].entry.key, nodes[node].entry.key))
    && (forall j :: i < j < |list| ==> list[j] < |nodes| && Less(nodes[node].entry.key, nodes[list[j]].entry.key))
  }

  /** Publishing the node after its predecessor makes it part of the level, in order. */
  lemma PublishLinked(nodes: seq<Node>, l: nat, list: seq<nat>, node: nat, x: nat, i: nat)
    requires Linked(nodes, l, list) && Belongs(nodes, list, node, i) && node !in list && node != HEAD
    requires list[i] == x && l < |nodes[node].next| && nodes[node].next[l] == After(list, i)
    ensures Linked(SetNext(nodes, x, l, Some(node)), l, InsertAfter(list, i, node))
  {
    var nodes', list' := SetNext(nodes, x, l, Some(node)), InsertAfter(list, i, node);
    hide SetNext, Less, Linked, After, InsertAfter;
    forall j | 0 <= j < |list'|
      ensures list'[j] < |nodes| && l < |nodes[list'[j]].next| && (0 < j <==> list'[j] != HEAD)
      ensures nodes'[list'[j]].next[l] == After(list', j)
    {
      PublishedLink(nodes, l, list, node, x, i, j);
    }
    forall j, k | 0 < j < k < |list'|
      ensures Less(nodes'[list'[j]].entry.key, nodes'[list'[k]].entry.key)
    {
      InsertedOrder(nodes, l, list, node, i, j, k);
    }
    LinkedBy(nodes', l, list');
  }

  lemma LinkedBy(nodes: seq<Node>, l: nat, list: seq<nat>)
    requires list != []
    requires forall j :: 0 <= j < |list| ==> list[j] < |nodes| && l < |nodes[list[j]].next| && (0 < j <==> list[j] != HEAD)
    requires forall j :: 0 <= j < |list| ==> nodes[list[j]].next[l] == After(list, j)
    requires forall j, k :: 0 < j < k < |list| ==> Less(nodes[list[j]].entry.key, nodes[list[k]].entry.key)
    ensures Linked(nodes, l, list)
  {
  }

  lemma PublishedLink(nodes: seq<Node>, l: nat, list: seq<nat>, node: nat, x: nat, i: nat, j: nat)
    requires Linked(nodes, l, list) && node < |nodes| && node !in list && node != HEAD
    requires i < |list| && list[i] == x && l < |nodes[node].next| && nodes[node].next[l] == After(list, i)
    requires j < |InsertAfter(list, i, node)|
    ensures x < |nodes| && l < |nodes[x].next|
    ensures var y := InsertAfter(list, i, node)[j];
            && y < |nodes| && l < |nodes[y].next| && (0 < j <==> y != HEAD)
            && SetNext(nodes, x, l, Some(node))[y].next[l] == After(InsertAfter(list, i, node), j)
  {
    hide SetNext, Less, Linked;
    LinkOf(nodes, l, list, i);
    if j < i {
      LinkOf(nodes, l, list, j);
      NoRepeat(nodes, l, list, j, i);
    } else if j > i + 1 {
      LinkOf(nodes, l, list, j - 1);
      NoRepeat(nodes, l, list, j - 1, i);
    }
  }

  lemma LinkOf(nodes: seq<Node>, l: nat, list: seq<nat>, m: nat)
    requires Linked(nodes, l, list) && m < |list|
    ensures list[m] < |nodes| && l < |nodes[list[m]].next| && nodes[list[m]].next[l] == After(list, m)
    ensures 0 < m <==> list[m] != HEAD
  {
  }

  lemma NoRepeat(nodes: seq<Node>, l: nat, list: seq<nat>, a: nat, b: nat)
    requires Linked(nodes, l, list) && a < |list| && b < |list| && a != b
    ensures list[a] != list[b]
  {
    if 0 < a && 0 < b {
      assert a < b ==> Less(nodes[list[a]].entry.key, nodes[list[b]].entry.key);
      assert b < a ==> Less(nodes[list[b]].entry.key, nodes[list[a]].entry.key);
    }
  }

  lemma InsertedOrder(nodes: seq<Node>, l: nat, list: seq<nat>, node: nat, i: nat, j: nat, k: nat)
    requires Linked(nodes, l, list) && Belongs(nodes, list, node, i) && 0 < j < k <= |list|
    ensures var list' := InsertAfter(list, i, node);
            list'[j] < |nodes| && list'[k] < |nodes| && Less(nodes[list'[j]].entry.key, nodes[list'[k]].entry.key)
  {
    hide Less, InsertAfter;
    InsertAfterAt(list, i, node, j);
    InsertAfterAt(list, i, node, k);
  }

  lemma InsertAfterAt(list: seq<nat>, i: nat, node: nat, j: nat)
    requires i < |list| && j <= |list|
    ensures InsertAfter(list, i, node)[j] == if j <= i then list[j] else if j == i + 1 then node else list[j - 1]
  {
  }

  lemma InsertAfterHas(list: seq<nat>, i: nat, node: nat, x: nat)
    requires i < |list|
    ensures x in InsertAfter(list, i, node) <==> x in list || x == node
  {
    assert list == list[..i + 1] + list[i + 1..];
  }

  /** The place in the level where the node goes. */
  lemma PublishPlace(nodes: seq<Node>, levels: seq<seq<nat>>, maxHeight: nat, ins: Insertion) returns (i: nat)
    requires ListsOk(nodes, levels, maxHeight) && InsertionOk(nodes, levels, maxHeight, ins)
    ensures var l := ins.linked;
            && i < |levels[l]| && levels[l][i] == ins.prev[l] && Belongs(nodes, levels[l], ins.node, i)
            && ins.prev[l] < |nodes| && l < |nodes[ins.prev[l]].next| && nodes[ins.prev[l]].next[l] == After(levels[l], i)
  {
    hide Splits, Less, NewEntry, Belongs;
    var l, x, e := ins.linked, ins.prev[ins.linked], nodes[ins.node].entry;
    var list := levels[l];
    assert Before(nodes, list, l, e.key, x);
    i := SplitIndex(nodes, list, Until(e.key), x, nodes[x].next[l]);
    NewBelow(nodes, levels, maxHeight, l, ins.node);
    assert Linked(nodes, l, list);
    BelongsAfter(nodes, list, ins.node, i);
  }

  /** One level gets the node: the lists stay linked and nested. */
  lemma PublishLists(nodes: seq<Node>, levels: seq<seq<nat>>, maxHeight: nat, ins: Insertion, i: nat)
    requires ListsOk(nodes, levels, maxHeight) && InsertionOk(nodes, levels, maxHeight, ins) && ins.prepared
    requires var l := ins.linked;
             && i < |levels[l]| && levels[l][i] == ins.prev[l] && Belongs(nodes, levels[l], ins.node, i)
             && ins.prev[l] < |nodes| && l < |nodes[ins.prev[l]].next| && nodes[ins.prev[l]].next[l] == After(levels[l], i)
    ensures var l := ins.linked;
            ListsOk(SetNext(nodes, ins.prev[l], l, Some(ins.node)), levels[l := InsertAfter(levels[l], i, ins.node)], maxHeight)
  {
    hide Linked, Splits, SetNext, Less, NewEntry, Belongs, InsertAfter, After, Before;
    var l, x := ins.linked, ins.prev[ins.linked];
    var list := levels[l];
    PublishLinked(nodes, l, list, ins.node, x, i);
    forall y
      ensures y in InsertAfter(list, i, ins.node) <==> y in list || y == ins.node
    {
      InsertAfterHas(list, i, ins.node, y);
    }
    var nodes' := SetNext(nodes, x, l, Some(ins.node));
    forall m | 0 <= m < MAX_HEIGHT && m != l
      ensures Linked(nodes', m, levels[m])
    {
      LinkedStays(nodes, x, l, Some(ins.node), m, levels[m]);
    }
  }

  lemma BelongsAfter(nodes: seq<Node>, list: seq<nat>, node: nat, i: nat)
    requires NewEntry(nodes, list, node) && i < |list| && node !in list
    requires forall j :: 0 <= j < |list| ==> list[j] < |nodes| && (0 < j ==> list[j] != HEAD)
    requires forall j :: 0 < j <= i ==> Passes(Until(nodes[node].entry.key), nodes[list[j]].entry)
    requires forall j :: i < j < |list| ==> !Passes(Until(nodes[node].entry.key), nodes[list[j]].entry)
    ensures Belongs(nodes, list, node, i)
  {
    hide Less;
    assert forall j :: 0 <= j < |list| ==> list[j] in list;
  }

  lemma NewBelow(nodes: seq<Node>, levels: seq<seq<nat>>, maxHeight: nat, l: nat, node: nat)
    requires ListsOk(nodes, levels, maxHeight) && l < MAX_HEIGHT && NewEntry(nodes, levels[0], node)
    ensures NewEntry(nodes, levels[l], node)
  {
    hide Linked, Less;
  }

  lemma BeforeStays(nodes: seq<Node>, x: nat, level: nat, next: Option<nat>, list: seq<nat>, m: nat, key: InternalKey, y: nat)
    requires x < |nodes| && level < |nodes[x].next| && m != level && Before(nodes, list, m, key, y)
    ensures Before(SetNext(nodes, x, level, next), list, m, key, y)
  {
    hide SetNext, Splits;
    SplitsStays(nodes, x, level, next, list, Until(key), y, nodes[y].next[m]);
  }

  /** After publishing one level the insertion goes on with the next. */
  lemma PublishGoesOn(nodes: seq<Node>, levels: seq<seq<nat>>, maxHeight: nat, ins: Insertion, i: nat)
    requires InsertionOk(nodes, levels, maxHeight, ins) && ins.linked + 1 < |ins.prev| && i < |levels[ins.linked]|
    ensures var l := ins.linked;
            InsertionOk(SetNext(nodes, ins.prev[l], l, Some(ins.node)), levels[l := InsertAfter(levels[l], i, ins.node)],
                        maxHeight, ins.(linked := l + 1, prepared := false))
  {
    hide Before, SetNext, Less, InsertAfter;
    var l, node := ins.linked, ins.node;
    assert Before(nodes, levels[l], l, nodes[node].entry.key, ins.prev[l]);
    PrevExists(nodes, levels[l], l, nodes[node].entry.key, ins.prev[l]);
    var nodes', list' := SetNext(nodes, ins.prev[l], l, Some(node)), InsertAfter(levels[l], i, node);
    forall y
      ensures y in list' <==> y in levels[l] || y == node
    {
      InsertAfterHas(levels[l], i, node, y);
    }
    forall m | l + 1 <= m < |ins.prev|
      ensures Before(nodes', levels[m], m, nodes[node].entry.key, ins.prev[m])
    {
      BeforeStays(nodes, ins.prev[l], l, Some(node), levels[m], m, nodes[node].entry.key, ins.prev[m]);
    }
  }

  lemma PrevExists(nodes: seq<Node>, list: seq<nat>, level: nat, key: InternalKey, x: nat)
    requires Before(nodes, list, level, key, x)
    ensures x < |nodes| && level < |nodes[x].next|
  {
  }

  /** A new node that is on no level yet. */
  lemma NewNodeKeeps(nodes: seq<Node>, levels: seq<seq<nat>>, maxHeight: nat, node: Node, maxHeight': nat)
    requires ListsOk(nodes, levels, maxHeight) && maxHeight <= maxHeight' <= MAX_HEIGHT
    ensures ListsOk(nodes + [node], levels, maxHeight')
    ensures forall l :: 0 <= l < MAX_HEIGHT ==> |nodes| !in levels[l]
  {
    hide Less, After;
    forall l | 0 <= l < MAX_HEIGHT
      ensures Linked(nodes + [node], l, levels[l]) && |nodes| !in levels[l]
    {
      LinkedGrows(nodes, l, levels[l], node);
    }
  }

  lemma LinkedGrows(nodes: seq<Node>, l: nat, list: seq<nat>, node: Node)
    requires Linked(nodes, l, list)
    ensures Linked(nodes + [node], l, list) && |nodes| !in list
  {
    hide Less, After;
  }

  lemma BeforeGrows(nodes: seq<Node>, list: seq<nat>, level: nat, key: InternalKey, x: nat, node: Node)
    requires Before(nodes, list, level, key, x)
    ensures Before(nodes + [node], list, level, key, x)
  {
    var i := SplitIndex(nodes, list, Until(key), x, nodes[x].next[level]);
    hide Less, After;
  }

  lemma ReaderStays(nodes: seq<Node>, levels: seq<seq<nat>>, r: Reader, nodes': seq<Node>, levels': seq<seq<nat>>)
    requires ReaderOk(nodes, levels, r) && |levels'| == MAX_HEIGHT && |nodes| <= |nodes'|
    requires forall x :: 0 <= x < |nodes| ==> nodes'[x].entry == nodes[x].entry
    requires forall l, x :: 0 <= l < MAX_HEIGHT && x in levels[l] ==> x in levels'[l]
    ensures ReaderOk(nodes', levels', r)
  {
  }

  // ------------------------------------------------------------------ the list

  class SkipList {
    var nodes: seq<Node>                 // the arena; the head comes first
    var maxHeight: nat
    var inserting: Option<Insertion>     // what the writer is doing
    ghost var levels: seq<seq<nat>>      // the nodes of each level, in order

    ghost predicate Valid()
      reads this
    {
      && ListsOk(nodes, levels, maxHeight)
      && (inserting.Some? ==> InsertionOk(nodes, levels, maxHeight, inserting.value))
    }

    /** The entries that readers can find. */
    ghost function Contents(): seq<Entry>
      requires Valid()
      reads this
    {
      BottomOk(nodes, levels, maxHeight);
      EntriesOf(nodes, levels[0])
    }

    constructor ()
      ensures Valid() && inserting.None? && Contents() == []
    {
      var e := Entry(InternalKey(0.0, 0, TypeValue), "");
      nodes := [Node(e, seq(MAX_HEIGHT, _ => None))];
      maxHeight, inserting := 1, None;
      levels := seq(MAX_HEIGHT, _ => [HEAD]);
    }

    /** FindGreaterOrEqual as the writer uses it, with the predecessors on every level:
        nobody else writes meanwhile. */
    method FindPrev(key: InternalKey) returns (prev: seq<nat>)
      requires Valid()
      ensures |prev| == MAX_HEIGHT
      ensures forall l :: 0 <= l < MAX_HEIGHT ==> Before(nodes, levels[l], l, key, prev[l])
    {
      hide Linked, Less, Before, Splits, InsertionOk, ListsOk;
      HeightOk(nodes, levels, maxHeight);
      prev := seq(MAX_HEIGHT, _ => HEAD);
      EmptyBefore(nodes, levels, maxHeight, key);
      var r := Reader(Until(key), HEAD, maxHeight - 1, None);
      ghost var i: nat := 0;
      HeadOk(nodes, levels, maxHeight, r);
      while r.found.None?
        invariant r.goal == Until(key) && ReaderOk(nodes, levels, r) && |prev| == MAX_HEIGHT
        invariant r.level < MAX_HEIGHT && i < |levels[r.level]| && levels[r.level][i] == r.x
        invariant forall l :: r.level < l < MAX_HEIGHT ==> Before(nodes, levels[l], l, key, prev[l])
        invariant r.found.Some? ==> Before(nodes, levels[0], 0, key, prev[0]) && r.level == 0
        decreases r.level, |levels[r.level]| - i, r.found.None?
      {
        AdvanceOk(nodes, levels, maxHeight, r);
        var r' := Advance(nodes, r);
        if r'.x == r.x {
          // the next node is at or after the key
          StopIsBefore(nodes, levels, maxHeight, r);
          prev := prev[r.level := r.x];
          if r.level > 0 {
            i := PlaceOf(nodes, levels, r');
          }
        } else {
          MovesOn(nodes, levels, maxHeight, r, i);
          i := i + 1;
        }
        r := r';
      }
    }

    /** The first part of Insert: the predecessors, the height of the list, the new node. */
    method StartInsert(e: Entry, height: nat)
      requires Valid() && inserting.None? && 1 <= height <= MAX_HEIGHT
      requires forall x :: x in Contents() ==> Less(x.key, e.key) || Less(e.key, x.key)
      modifies this
      ensures Valid() && Contents() == old(Contents())
      ensures inserting.Some? && inserting.value.linked == 0 && !inserting.value.prepared
      ensures inserting.value.node < |nodes| && nodes[inserting.value.node].entry == e
      ensures |nodes[inserting.value.node].next| == |inserting.value.prev| == height
      ensures levels == old(levels) && |nodes| == old(|nodes|) + 1
      ensures forall y :: 0 <= y < old(|nodes|) ==> nodes[y].entry == old(nodes)[y].entry
    {
      hide Linked, Less, Before, Splits, ListsOk;
      var prev := FindPrev(e.key);
      var node, x := Node(e, seq(height, _ => None)), |nodes|;
      ghost var before := nodes;
      var maxHeight' := if height > maxHeight then height else maxHeight;
      HeightOk(nodes, levels, maxHeight);
      NewNodeKeeps(nodes, levels, maxHeight, node, maxHeight');
      BottomOk(nodes, levels, maxHeight);
      NewNodeEntry(nodes, levels, maxHeight, node, e);
      forall l | 0 <= l < MAX_HEIGHT
        ensures Before(nodes + [node], levels[l], l, e.key, prev[l])
      {
        BeforeGrows(nodes, levels[l], l, e.key, prev[l], node);
      }
      maxHeight, nodes := maxHeight', nodes + [node];
      inserting := Some(Insertion(x, prev[..height], 0, false));
      ContentsGrow(before, levels, maxHeight, node);
    }

    /** Sets the new node's own link on the next level, which nobody can see yet. */
    method PrepareLink()
      requires Valid() && inserting.Some? && !inserting.value.prepared
      modifies this
      ensures Valid() && Contents() == old(Contents()) && levels == old(levels)
      ensures inserting == Some(old(inserting).value.(prepared := true)) && |nodes| == old(|nodes|)
      ensures forall y :: 0 <= y < |nodes| ==> nodes[y].entry == old(nodes)[y].entry && |nodes[y].next| == |old(nodes)[y].next|
    {
      hide Linked, Less, Before, SetNext, ListsOk;
      var ins := inserting.value;
      PrevOfNext(nodes, levels, maxHeight, ins);
      PrepareKeeps(nodes, levels, maxHeight, ins);
      nodes := SetNext(nodes, ins.node, ins.linked, nodes[ins.prev[ins.linked]].next[ins.linked]);
      inserting := Some(ins.(prepared := true));
      SameContents(old(nodes), nodes, levels, maxHeight);
    }

    /** Links the node on the next level.  Readers can find it once it is on the lowest one. */
    method PublishLink()
      requires Valid() && inserting.Some? && inserting.value.prepared
      modifies this
      ensures Valid() && |nodes| == old(|nodes|)
      ensures var ins := old(inserting).value;
              && ins.node < |nodes|
              && (inserting.None? <==> ins.linked + 1 == |ins.prev|)
              && (inserting.Some? ==> inserting == Some(ins.(linked := ins.linked + 1, prepared := false)))
              && Contents() == (if ins.linked == 0 then InsertEntry(old(Contents()), nodes[ins.node].entry) else old(Contents()))
      ensures forall y :: 0 <= y < |nodes| ==> nodes[y].entry == old(nodes)[y].entry
      ensures |levels| == |old(levels)| == MAX_HEIGHT
      ensures forall l, x :: 0 <= l < MAX_HEIGHT && x in old(levels)[l] ==> x in levels[l]
    {
      hide Linked, Less, Before, SetNext, ListsOk, InsertAfter, NewEntry, Belongs, InsertEntry, EntriesOf, After, InsertionOk;
      HeightOk(nodes, levels, maxHeight);
      var ins := inserting.value;
      InsertionParts(nodes, levels, maxHeight, ins);
      ghost var i := PublishPlace(nodes, levels, maxHeight, ins);
      PublishLists(nodes, levels, maxHeight, ins, i);
      var l, x := ins.linked, ins.prev[ins.linked];
      if l + 1 < |ins.prev| {
        PublishGoesOn(nodes, levels, maxHeight, ins, i);
      }
      ghost var nodes' := SetNext(nodes, x, l, Some(ins.node));
      PublishedContents(nodes, nodes', levels, maxHeight, ins, i);
      forall y
        ensures y in levels[l] ==> y in InsertAfter(levels[l], i, ins.node)
      {
        InsertAfterHas(levels[l], i, ins.node, y);
      }
      nodes := SetNext(nodes, x, l, Some(ins.node));
      levels := levels[l := InsertAfter(levels[l], i, ins.node)];
      inserting := if l + 1 == |ins.prev| then None else Some(ins.(linked := l + 1, prepared := false));
    }

    /** Insert, with no reader looking. */
    method Insert(e: Entry, height: nat)
      requires Valid() && inserting.None? && 1 <= height <= MAX_HEIGHT
      requires forall x :: x in Contents() ==> Less(x.key, e.key) || Less(e.key, x.key)
      modifies this
      ensures Valid() && inserting.None? && Contents() == InsertEntry(old(Contents()), e)
    {
      hide Less, ListsOk, InsertionOk, InsertEntry, EntriesOf;
      StartInsert(e, height);
      LinkCount();
      ghost var before, node := Contents(), inserting.value.node;
      while inserting.Some?
        invariant Valid()
        invariant inserting.Some? ==> inserting.value.linked < |inserting.value.prev| && !inserting.value.prepared
        invariant node < |nodes| && nodes[node].entry == e && (inserting.Some? ==> inserting.value.node == node)
        invariant Contents() == if inserting.Some? && inserting.value.linked == 0 then before else InsertEntry(before, e)
        decreases if inserting.Some? then |inserting.value.prev| - inserting.value.linked else 0
      {
        PrepareLink();
        PublishLink();
        LinkCount();
      }
    }

    lemma LinkCount()
      requires Valid()
      ensures inserting.Some? ==> inserting.value.linked < |inserting.value.prev|
    {
    }

    /** One read of a reader.  A search that ends has found, among the entries readers can
        find at that moment, the first one at or after its key and the last one before it. */
    method ReadLink(r: Reader) returns (r': Reader)
      requires Valid() && ReaderOk(nodes, levels, r) && r.found.None?
      ensures ReaderOk(nodes, levels, r') && r'.goal == r.goal && r.level < |levels| && Forward(levels, r, r')
      ensures r'.found.Some? ==> Splits(nodes, levels[0], r.goal, r'.x, r'.found.value)
      ensures r'.found.Some? && r.goal.Until? ==>
                var n := LowerBound(Contents(), r.goal.key);
                && (r'.found.value.None? <==> n == |Contents()|)
                && (r'.found.value.Some? ==> r'.found.value.value < |nodes| && nodes[r'.found.value.value].entry == Contents()[n])
                && (r'.x == HEAD <==> n == 0)
                && (r'.x != HEAD ==> nodes[r'.x].entry == Contents()[n - 1])
    {
      hide Less, ListsOk, InsertionOk, LowerBound, EntriesOf, Splits;
      HeightOk(nodes, levels, maxHeight);
      AdvanceOk(nodes, levels, maxHeight, r);
      AdvanceForward(nodes, levels, maxHeight, r);
      r' := Advance(nodes, r);
      if r'.found.Some? && r.goal.Until? {
        BottomLinked(nodes, levels, maxHeight);
        SplitIsLowerBound(nodes, 0, levels[0], r.goal.key, r'.x, r'.found.value);
      }
    }

    /** A reader starts at the head, on the highest level. */
    method StartRead(goal: Goal) returns (r: Reader)
      requires Valid()
      ensures ReaderOk(nodes, levels, r) && r.goal == goal && r.found.None? && r.x == HEAD
    {
      HeightOk(nodes, levels, maxHeight);
      r := Reader(goal, HEAD, maxHeight - 1, None);
      HeadOk(nodes, levels, maxHeight, r);
    }

    /** FindGreaterOrEqual, with no writer around: the search comes to its end. */
    method FindGreaterOrEqual(key: InternalKey) returns (found: Option<nat>)
      requires Valid()
      ensures var n := LowerBound(Contents(), key);
              && (found.None? <==> n == |Contents()|)
              && (found.Some? ==> found.value < |nodes| && nodes[found.value].entry == Contents()[n])
    {
      hide Less, ListsOk, InsertionOk, LowerBound, EntriesOf, Splits, Passes;
      var r := StartRead(Until(key));
      ghost var i: nat := PlaceOf(nodes, levels, r);
      while r.found.None?
        invariant ReaderOk(nodes, levels, r) && r.goal == Until(key) && r.level < |levels|
        invariant i < |levels[r.level]| && levels[r.level][i] == r.x
        invariant r.found.Some? ==>
                    var n := LowerBound(Contents(), key);
                    && (r.found.value.None? <==> n == |Contents()|)
                    && (r.found.value.Some? ==> r.found.value.value < |nodes| && nodes[r.found.value.value].entry == Contents()[n])
        decreases r.level, |levels[r.level]| - i, r.found.None?
      {
        var r' := ReadLink(r);
        if r'.level < r.level {
          i := PlaceOf(nodes, levels, r');
        } else if r'.found.None? {
          OnlyPlace(nodes, levels, maxHeight, r, r', i);
          i := i + 1;
        }
        r := r';
      }
      found := r.found.value;
    }
  }

  /** A node stands at one place of its level only. */
  lemma OnlyPlace(nodes: seq<Node>, levels: seq<seq<nat>>, maxHeight: nat, r: Reader, r': Reader, i: nat)
    requires ListsOk(nodes, levels, maxHeight) && r.level < |levels| && i < |levels[r.level]| && levels[r.level][i] == r.x
    requires Forward(levels, r, r') && r'.level == r.level && r.found.None? && r'.found.None?
    ensures i + 1 < |levels[r.level]| && levels[r.level][i + 1] == r'.x
  {
    assert Linked(nodes, r.level, levels[r.level]);
    hide ListsOk, Linked;
    var j: nat :| NextTo(levels[r.level], j, r.x, r'.x);
    if i != j {
      NoRepeat(nodes, r.level, levels[r.level], i, j);
    }
  }

  lemma BottomLinked(nodes: seq<Node>, levels: seq<seq<nat>>, maxHeight: nat)
    requires ListsOk(nodes, levels, maxHeight)
    ensures Linked(nodes, 0, levels[0])
  {
  }

  lemma InsertionParts(nodes: seq<Node>, levels: seq<seq<nat>>, maxHeight: nat, ins: Insertion)
    requires InsertionOk(nodes, levels, maxHeight, ins)
    ensures ins.node < |nodes| && ins.linked < |ins.prev| <= MAX_HEIGHT
  {
  }

  /** On the lowest level the node's entry joins the contents in order. */
  lemma PublishedContents(nodes: seq<Node>, nodes': seq<Node>, levels: seq<seq<nat>>, maxHeight: nat, ins: Insertion, i: nat)
    requires ListsOk(nodes, levels, maxHeight) && ins.node < |nodes| == |nodes'|
    requires ins.linked < MAX_HEIGHT && i < |levels[ins.linked]| && Belongs(nodes, levels[ins.linked], ins.node, i)
    requires forall y :: 0 <= y < |nodes| ==> nodes'[y].entry == nodes[y].entry
    requires ListsOk(nodes', levels[ins.linked := InsertAfter(levels[ins.linked], i, ins.node)], maxHeight)
    ensures var levels' := levels[ins.linked := InsertAfter(levels[ins.linked], i, ins.node)];
            && levels[0] != [] && (forall i :: 0 <= i < |levels[0]| ==> levels[0][i] < |nodes|)
            && levels'[0] != [] && (forall i :: 0 <= i < |levels'[0]| ==> levels'[0][i] < |nodes|)
            && EntriesOf(nodes', levels'[0]) ==
               if ins.linked == 0 then InsertEntry(EntriesOf(nodes, levels[0]), nodes[ins.node].entry)
               else EntriesOf(nodes, levels[0])
  {
    BottomOk(nodes, levels, maxHeight);
    BottomOk(nodes', levels[ins.linked := InsertAfter(levels[ins.linked], i, ins.node)], maxHeight);
    hide ListsOk;
    if ins.linked == 0 {
      InsertedContents(nodes, nodes', levels[0], ins.node, i);
    }
  }

  lemma InsertedContents(nodes: seq<Node>, nodes': seq<Node>, list: seq<nat>, node: nat, i: nat)
    requires list != [] && (forall j :: 0 <= j < |list| ==> list[j] < |nodes|) && Belongs(nodes, list, node, i)
    requires |nodes'| == |nodes| && forall y :: 0 <= y < |nodes| ==> nodes'[y].entry == nodes[y].entry
    ensures (forall j :: 0 <= j < |InsertAfter(list, i, node)| ==> InsertAfter(list, i, node)[j] < |nodes|)
    ensures EntriesOf(nodes', InsertAfter(list, i, node)) == InsertEntry(EntriesOf(nodes, list), nodes[node].entry)
  {
    hide Less, LowerBound, InsertEntry;
    BelongsAtBound(nodes, list, node, i);
    var es, list' := EntriesOf(nodes, list), InsertAfter(list, i, node);
    var es' := InsertEntry(es, nodes[node].entry);
    assert |es'| == |list|;
    forall j | 0 <= j < |list|
      ensures EntriesOf(nodes', list')[j] == es'[j]
    {
      InsertEntryAt(es, nodes[node].entry, i, j);
    }
  }

  lemma BelongsAtBound(nodes: seq<Node>, list: seq<nat>, node: nat, i: nat)
    requires (forall j :: 0 <= j < |list| ==> list[j] < |nodes|) && Belongs(nodes, list, node, i)
    ensures LowerBound(EntriesOf(nodes, list), nodes[node].entry.key) == i
  {
    var key := nodes[node].entry.key;
    assert forall j :: i < j < |list| ==> !Less(nodes[list[j]].entry.key, key);
    PlaceIsLowerBound(nodes, list, key, i);
  }

  lemma InsertEntryAt(es: seq<Entry>, e: Entry, i: nat, j: nat)
    requires i == LowerBound(es, e.key) && j <= |es|
    ensures InsertEntry(es, e)[j] == if j < i then es[j] else if j == i then e else es[j - 1]
  {
  }

  lemma PrevOfNext(nodes: seq<Node>, levels: seq<seq<nat>>, maxHeight: nat, ins: Insertion)
    requires InsertionOk(nodes, levels, maxHeight, ins)
    ensures ins.prev[ins.linked] < |nodes| && ins.linked < |nodes[ins.prev[ins.linked]].next|
  {
    assert Before(nodes, levels[ins.linked], ins.linked, nodes[ins.node].entry.key, ins.prev[ins.linked]);
  }

  lemma HeightOk(nodes: seq<Node>, levels: seq<seq<nat>>, maxHeight: nat)
    requires ListsOk(nodes, levels, maxHeight)
    ensures |levels| == MAX_HEIGHT && 1 <= maxHeight <= MAX_HEIGHT && 0 < |nodes|
  {
    assert Linked(nodes, 0, levels[0]);
  }

  lemma SameContents(nodes: seq<Node>, nodes': seq<Node>, levels: seq<seq<nat>>, maxHeight: nat)
    requires ListsOk(nodes, levels, maxHeight) && ListsOk(nodes', levels, maxHeight) && |nodes| <= |nodes'|
    requires forall y :: 0 <= y < |nodes| ==> nodes'[y].entry == nodes[y].entry
    ensures levels[0] != [] && (forall i :: 0 <= i < |levels[0]| ==> levels[0][i] < |nodes|)
    ensures EntriesOf(nodes', levels[0]) == EntriesOf(nodes, levels[0])
  {
    BottomOk(nodes, levels, maxHeight);
    hide ListsOk;
  }

  lemma ContentsGrow(nodes: seq<Node>, levels: seq<seq<nat>>, maxHeight: nat, node: Node)
    requires ListsOk(nodes + [node], levels, maxHeight) && |levels| == MAX_HEIGHT && |nodes| !in levels[0]
    ensures levels[0] != [] && forall i :: 0 <= i < |levels[0]| ==> levels[0][i] < |nodes|
    ensures EntriesOf(nodes + [node], levels[0]) == EntriesOf(nodes, levels[0])
  {
    BottomOk(nodes + [node], levels, maxHeight);
    hide *;
    AllBelow(levels[0], |nodes|, |nodes + [node]|);
    EntriesGrow(nodes, levels[0], node);
  }

  lemma AllBelow(list: seq<nat>, n: nat, m: nat)
    requires n !in list && m <= n + 1 && forall i :: 0 <= i < |list| ==> list[i] < m
    ensures forall i :: 0 <= i < |list| ==> list[i] < n
  {
    forall i | 0 <= i < |list|
      ensures list[i] < n
    {
      assert list[i] in list;
    }
  }

  lemma EntriesGrow(nodes: seq<Node>, list: seq<nat>, node: Node)
    requires list != [] && forall i :: 0 <= i < |list| ==> list[i] < |nodes|
    ensures EntriesOf(nodes + [node], list) == EntriesOf(nodes, list)
  {
  }

  /** An entry in a new place makes a new entry of the list. */
  lemma NewNodeEntry(nodes: seq<Node>, levels: seq<seq<nat>>, maxHeight: nat, node: Node, e: Entry)
    requires ListsOk(nodes, levels, maxHeight) && node.entry == e
    requires levels[0] != [] && (forall i :: 0 <= i < |levels[0]| ==> levels[0][i] < |nodes|)
    requires forall x :: x in EntriesOf(nodes, levels[0]) ==> Less(x.key, e.key) || Less(e.key, x.key)
    ensures NewEntry(nodes + [node], levels[0], |nodes|)
  {
    hide Less, After;
    forall x | x in levels[0] && x != HEAD && x != |nodes|
      ensures x < |nodes| && (Less(nodes[x].entry.key, e.key) || Less(e.key, nodes[x].entry.key))
    {
      var i :| 0 <= i < |levels[0]| && levels[0][i] == x;
      assert Linked(nodes, 0, levels[0]);
      assert EntriesOf(nodes, levels[0])[i - 1] == nodes[x].entry;
    }
  }

  lemma EmptyBefore(nodes: seq<Node>, levels: seq<seq<nat>>, maxHeight: nat, key: InternalKey)
    requires ListsOk(nodes, levels, maxHeight)
    ensures forall l :: maxHeight <= l < MAX_HEIGHT ==> Before(nodes, levels[l], l, key, HEAD)
  {
    forall l | maxHeight <= l < MAX_HEIGHT
      ensures Before(nodes, levels[l], l, key, HEAD)
    {
      assert Linked(nodes, l, levels[l]);
      assert levels[l][0] == HEAD;
    }
  }

  lemma HeadOk(nodes: seq<Node>, levels: seq<seq<nat>>, maxHeight: nat, r: Reader)
    requires ListsOk(nodes, levels, maxHeight) && r.x == HEAD && r.level < MAX_HEIGHT
    ensures ReaderOk(nodes, levels, r) && 0 < |levels[r.level]| && levels[r.level][0] == HEAD
  {
    assert Linked(nodes, r.level, levels[r.level]);
  }

  lemma PlaceOf(nodes: seq<Node>, levels: seq<seq<nat>>, r: Reader) returns (i: nat)
    requires ReaderOk(nodes, levels, r)
    ensures i < |levels[r.level]| && levels[r.level][i] == r.x
  {
    i :| 0 <= i < |levels[r.level]| && levels[r.level][i] == r.x;
  }

  /** A reader that stops on a level stands just before the key there. */
  lemma StopIsBefore(nodes: seq<Node>, levels: seq<seq<nat>>, maxHeight: nat, r: Reader)
    requires ListsOk(nodes, levels, maxHeight) && ReaderOk(nodes, levels, r) && r.found.None? && r.goal.Until?
    requires r.level < |nodes[r.x].next| && forall n :: nodes[r.x].next[r.level] == Some(n) ==> n < |nodes|
    requires Advance(nodes, r).x == r.x
    ensures Before(nodes, levels[r.level], r.level, r.goal.key, r.x)
    ensures Advance(nodes, r) == if r.level == 0 then r.(found := Some(nodes[r.x].next[0])) else r.(level := r.level - 1)
  {
    var next, list := nodes[r.x].next[r.level], levels[r.level];
    assert Linked(nodes, r.level, list);
    var i :| 0 <= i < |list| && list[i] == r.x;
    if next.Some? {
      NoRepeat(nodes, r.level, list, i, i + 1);
    }
    SplitAt(nodes, r.level, list, r.goal, r.x);
  }

  lemma MovesOn(nodes: seq<Node>, levels: seq<seq<nat>>, maxHeight: nat, r: Reader, i: nat)
    requires ListsOk(nodes, levels, maxHeight) && ReaderOk(nodes, levels, r) && r.found.None?
    requires i < |levels[r.level]| && levels[r.level][i] == r.x
    requires r.level < |nodes[r.x].next| && forall n :: nodes[r.x].next[r.level] == Some(n) ==> n < |nodes|
    requires Advance(nodes, r).x != r.x
    ensures var r' := Advance(nodes, r);
            i + 1 < |levels[r.level]| && r' == r.(x := levels[r.level][i + 1])
  {
    assert Linked(nodes, r.level, levels[r.level]);
    assert nodes[r.x].next[r.level] == After(levels[r.level], i);
  }

  lemma BottomOk(nodes: seq<Node>, levels: seq<seq<nat>>, maxHeight: nat)
    requires ListsOk(nodes, levels, maxHeight)
    ensures levels[0] != [] && forall i :: 0 <= i < |levels[0]| ==> levels[0][i] < |nodes|
  {
    assert Linked(nodes, 0, levels[0]);
  }

  // ------------------------------------------------------------------ every interleaving

  /** Which thread moves next: the writer starts or goes on, a reader starts or goes on. */
  datatype Move = ToInsert(e: Entry, height: nat) | ToWrite | ToRead(goal: Goal) | ToReadLink(i: nat)

  /** An entry being inserted: its height, on how many levels it is linked, and whether its
      link on the next one is set. */
  datatype Pending = Pending(entry: Entry, height: nat, linked: nat, prepared: bool)

  /** What there is to see of a list: the entries that readers can find, and the insertion in progress. */
  datatype Shown = Shown(contents: seq<Entry>, pending: Option<Pending>)

  ghost function Now(list: SkipList): Shown
    requires list.Valid()
    reads list
  {
    Shown(list.Contents(),
          if list.inserting.None? then None else
          var ins := list.inserting.value;
          Some(Pending(list.nodes[ins.node].entry, |ins.prev|, ins.linked, ins.prepared)))
  }

  /** No entry is in the same place. */
  ghost predicate Apart(es: seq<Entry>, e: Entry) {
    forall x :: x in es ==> Less(x.key, e.key) || Less(e.key, x.key)
  }

  /** What a move makes of the entries; one that is not possible leaves them alone. */
  ghost function Next(s: Shown, move: Move): Shown {
    match move
    case ToInsert(e, height) =>
      if s.pending.None? && 1 <= height <= MAX_HEIGHT && Apart(s.contents, e) then s.(pending := Some(Pending(e, height, 0, false)))
      else s
    case ToWrite =>
      if s.pending.None? then s else
      var p := s.pending.value;
      if !p.prepared then s.(pending := Some(p.(prepared := true))) else
      Shown(if p.linked == 0 then InsertEntry(s.contents, p.entry) else s.contents,
            if p.linked + 1 == p.height then None else Some(p.(linked := p.linked + 1, prepared := false)))
    case _ => s
  }

  ghost function Afterwards(s: Shown, moves: seq<Move>): Shown {
    if moves == [] then s else Next(Afterwards(s, moves[..|moves| - 1]), moves[|moves| - 1])
  }

  /** A writer that goes on comes to its end: then its entry has its place in the list. */
  lemma {:induction false} InsertEnds(s: Shown, n: nat)
    requires s.pending.Some? && s.pending.value.linked < s.pending.value.height
    requires n == 2 * (s.pending.value.height - s.pending.value.linked) - if s.pending.value.prepared then 1 else 0
    ensures var p := s.pending.value;
            Afterwards(s, seq(n, _ => ToWrite)) == Shown(if p.linked == 0 then InsertEntry(s.contents, p.entry) else s.contents, None)
    decreases n
  {
    hide InsertEntry;
    var s' := Next(s, ToWrite);
    AfterFirst(s, ToWrite, seq(n - 1, _ => ToWrite));
    assert [ToWrite] + seq(n - 1, _ => ToWrite) == seq(n, _ => ToWrite);
    if s'.pending.Some? {
      InsertEnds(s', n - 1);
    }
  }

  lemma {:induction false} AfterFirst(s: Shown, move: Move, moves: seq<Move>)
    ensures Afterwards(s, [move] + moves) == Afterwards(Next(s, move), moves)
    decreases |moves|
  {
    hide Next;
    var all := [move] + moves;
    if moves == [] {
      assert all[..0] == [] && Afterwards(s, []) == s;
    } else {
      AfterFirst(s, move, moves[..|moves| - 1]);
      assert all[..|all| - 1] == [move] + moves[..|moves| - 1];
    }
  }

  lemma AfterMore(s: Shown, moves: seq<Move>, move: Move)
    ensures Afterwards(s, moves + [move]) == Next(Afterwards(s, moves), move)
  {
    hide Next;
    assert (moves + [move])[..|moves|] == moves;
  }

  /** The readers after a move: one more, at the head of the list, or one of them a read further. */
  ghost predicate ReadersMove(levels: seq<seq<nat>>, readers: seq<Reader>, move: Move, readers': seq<Reader>) {
    match move
    case ToRead(goal) => |readers'| == |readers| + 1 && readers'[..|readers|] == readers && StartsAt(readers'[|readers|], goal)
    case ToReadLink(j) =>
      if j < |readers| && readers[j].found.None? then
        |readers'| == |readers| && readers' == readers[j := readers'[j]] && readers[j].level < |levels| && Forward(levels, readers[j], readers'[j])
      else readers' == readers
    case _ => readers' == readers
  }

  predicate StartsAt(r: Reader, goal: Goal) {
    r.goal == goal && r.x == HEAD && r.found.None?
  }

  ghost predicate ReadersOk(nodes: seq<Node>, levels: seq<seq<nat>>, readers: seq<Reader>) {
    forall i :: 0 <= i < |readers| ==> ReaderOk(nodes, levels, readers[i])
  }

  lemma ReadersStay(nodes: seq<Node>, levels: seq<seq<nat>>, readers: seq<Reader>, nodes': seq<Node>, levels': seq<seq<nat>>)
    requires ReadersOk(nodes, levels, readers) && |levels'| == MAX_HEIGHT && |nodes| <= |nodes'|
    requires |levels| == MAX_HEIGHT
    requires forall x :: 0 <= x < |nodes| ==> nodes'[x].entry == nodes[x].entry
    requires forall l, x :: 0 <= l < MAX_HEIGHT && x in levels[l] ==> x in levels'[l]
    ensures ReadersOk(nodes', levels', readers)
  {
    forall i | 0 <= i < |readers|
      ensures ReaderOk(nodes', levels', readers[i])
    {
      ReaderStays(nodes, levels, readers[i], nodes', levels');
    }
  }

  /** Is there no entry in the same place yet? */
  method IsNew(list: SkipList, e: Entry) returns (b: bool)
    requires list.Valid()
    ensures b <==> Apart(list.Contents(), e)
  {
    hide ListsOk, InsertionOk, EntriesOf, Splits, LowerBound, Apart;
    HeightOk(list.nodes, list.levels, list.maxHeight);
    var prev := list.FindPrev(e.key);
    assert Before(list.nodes, list.levels[0], 0, e.key, prev[0]);
    var next := list.nodes[prev[0]].next[0];
    BottomLinked(list.nodes, list.levels, list.maxHeight);
    SplitIsLowerBound(list.nodes, 0, list.levels[0], e.key, prev[0], next);
    EntriesSorted(list.nodes, 0, list.levels[0]);
    b := next.None? || Less(e.key, list.nodes[next.value].entry.key);
    NewAround(list.Contents(), e);
  }

  lemma NewAround(es: seq<Entry>, e: Entry)
    requires Sorted(es)
    ensures var n := LowerBound(es, e.key); Apart(es, e) <==> (n < |es| ==> Less(e.key, es[n].key))
  {
    hide Less, Sorted, LowerBound;
    LowerBoundSplits(es, e.key);
    var n := LowerBound(es, e.key);
    if n < |es| && !Less(e.key, es[n].key) {
      assert es[n] in es && !Less(es[n].key, e.key);
    } else {
      forall x | x in es
        ensures Less(x.key, e.key) || Less(e.key, x.key)
      {
        var j :| 0 <= j < |es| && es[j] == x;
        if j > n {
          SortedAfter(es, e, n, j);
        }
      }
    }
  }

  lemma SortedAfter(es: seq<Entry>, e: Entry, n: nat, j: nat)
    requires Sorted(es) && n < j < |es| && Less(e.key, es[n].key)
    ensures Less(e.key, es[j].key)
  {
    assert Less(es[n].key, es[j].key);
  }

  /** A search for the first entry at or after a key that has ended: it has found an
      entry at or after the key, or none, and no entry that was there when it started lies
      between the key and what it found. */
  ghost predicate Answered(nodes: seq<Node>, contents: seq<Entry>, before: seq<Entry>, r: Reader) {
    && (forall e :: e in before ==> e in contents)
    && (r.goal.Until? && r.found.Some? ==>
          && var n := r.found.value;
             && (n.Some? ==> n.value < |nodes| && nodes[n.value].entry in contents && !Less(nodes[n.value].entry.key, r.goal.key))
             && forall e :: e in before && !Less(e.key, r.goal.key) ==> n.Some? && !Less(e.key, nodes[n.value].entry.key))
  }

  ghost predicate AllAnswered(nodes: seq<Node>, contents: seq<Entry>, before: seq<seq<Entry>>, readers: seq<Reader>) {
    |before| == |readers| && forall i :: 0 <= i < |readers| ==> Answered(nodes, contents, before[i], readers[i])
  }

  lemma AnsweredStays(nodes: seq<Node>, contents: seq<Entry>, before: seq<seq<Entry>>, readers: seq<Reader>,
                      nodes': seq<Node>, contents': seq<Entry>)
    requires AllAnswered(nodes, contents, before, readers) && |nodes| <= |nodes'|
    requires forall x :: 0 <= x < |nodes| ==> nodes'[x].entry == nodes[x].entry
    requires forall e :: e in contents ==> e in contents'
    ensures AllAnswered(nodes', contents', before, readers)
  {
    hide Less;
  }

  lemma InsertKeeps(es: seq<Entry>, e: Entry)
    ensures forall x :: x in es ==> x in InsertEntry(es, e)
  {
    var n := LowerBound(es, e.key);
    forall x | x in es
      ensures x in InsertEntry(es, e)
    {
      var j :| 0 <= j < |es| && es[j] == x;
      InsertEntryAt(es, e, n, if j < n then j else j + 1);
    }
  }

  /** The end of a search, at the lower bound of its key. */
  lemma LowerBoundAnswers(nodes: seq<Node>, contents: seq<Entry>, before: seq<Entry>, r: Reader)
    requires Sorted(contents) && (forall e :: e in before ==> e in contents)
    requires r.found.Some? && r.goal.Until? ==>
               var n := LowerBound(contents, r.goal.key);
               && (r.found.value.None? <==> n == |contents|)
               && (r.found.value.Some? ==> r.found.value.value < |nodes| && nodes[r.found.value.value].entry == contents[n])
    ensures Answered(nodes, contents, before, r)
  {
    hide LowerBound, Sorted, Less;
    if r.found.Some? && r.goal.Until? {
      LowerBoundSplits(contents, r.goal.key);
      var n := LowerBound(contents, r.goal.key);
      forall e | e in before && !Less(e.key, r.goal.key)
        ensures n < |contents| && !Less(e.key, contents[n].key)
      {
        var j :| 0 <= j < |contents| && contents[j] == e;
        assert j >= n;
        SortedIndex(contents, j, n);
      }
    }
  }

  lemma ContentsSorted(list: SkipList)
    requires list.Valid()
    ensures Sorted(list.Contents())
  {
    BottomLinked(list.nodes, list.levels, list.maxHeight);
    EntriesSorted(list.nodes, 0, list.levels[0]);
  }

  /** Takes the moves in the given order, passing over those that are not possible.  Every
      search that has ended found the first entry at or after its key among those that were
      there when it started, or one that came in between.  The entries are those that the
      transition function makes of the moves. */
  method Interleave(moves: seq<Move>) returns (list: SkipList, readers: seq<Reader>, ghost before: seq<seq<Entry>>)
    ensures fresh(list) && list.Valid() && ReadersOk(list.nodes, list.levels, readers)
    ensures Now(list) == Afterwards(Shown([], None), moves)
    ensures Sorted(list.Contents()) && AllAnswered(list.nodes, list.Contents(), before, readers)
  {
    hide Less, ListsOk, InsertionOk, ReaderOk, EntriesOf, InsertEntry, LowerBound, Sorted, AllAnswered, Answered, ReadersOk, Next,
      ReadersMove;
    list := new SkipList();
    readers, before := [], [];
    NobodyAnswered(list.nodes, list.levels, list.Contents());
    for i := 0 to |moves|
      invariant fresh(list) && list.Valid() && ReadersOk(list.nodes, list.levels, readers)
      invariant AllAnswered(list.nodes, list.Contents(), before, readers)
      invariant Now(list) == Afterwards(Shown([], None), moves[..i])
    {
      assert moves[..i + 1] == moves[..i] + [moves[i]];
      AfterMore(Shown([], None), moves[..i], moves[i]);
      readers, before := Step(list, moves[i], readers, before);
    }
    assert moves[..|moves|] == moves;
    ContentsSorted(list);
  }

  /** One move.  A reader that starts is noted with the entries that are there. */
  method Step(list: SkipList, move: Move, readers: seq<Reader>, ghost before: seq<seq<Entry>>)
    returns (readers': seq<Reader>, ghost before': seq<seq<Entry>>)
    requires list.Valid() && ReadersOk(list.nodes, list.levels, readers) && AllAnswered(list.nodes, list.Contents(), before, readers)
    modifies list
    ensures list.Valid() && ReadersOk(list.nodes, list.levels, readers')
    ensures AllAnswered(list.nodes, list.Contents(), before', readers')
    ensures before' == if move.ToRead? then before + [old(list.Contents())] else before
    ensures Now(list) == Next(old(Now(list)), move) && ReadersMove(old(list.levels), readers, move, readers')
  {
    hide Less, ListsOk, InsertionOk, ReaderOk, EntriesOf, InsertEntry, LowerBound, Sorted, AllAnswered, Answered, ReadersOk;
    readers', before' := readers, before;
    match move
    case ToInsert(e, height) => TryInsert(list, e, height, readers, before);
    case ToWrite => GoOn(list, readers, before);
    case ToRead(goal) =>
      var r := list.StartRead(goal);
      OneMoreReader(list.nodes, list.levels, list.Contents(), readers, before, r);
      readers', before' := readers + [r], before + [list.Contents()];
    case ToReadLink(j) => readers' := ReadOn(list, j, readers, before);
  }

  lemma NobodyAnswered(nodes: seq<Node>, levels: seq<seq<nat>>, contents: seq<Entry>)
    ensures AllAnswered(nodes, contents, [], []) && ReadersOk(nodes, levels, [])
  {
  }

  lemma OneMoreReader(nodes: seq<Node>, levels: seq<seq<nat>>, contents: seq<Entry>, readers: seq<Reader>, before: seq<seq<Entry>>, r: Reader)
    requires ReadersOk(nodes, levels, readers) && AllAnswered(nodes, contents, before, readers)
    requires ReaderOk(nodes, levels, r) && r.found.None?
    ensures ReadersOk(nodes, levels, readers + [r]) && AllAnswered(nodes, contents, before + [contents], readers + [r])
  {
    hide ReaderOk, Less;
  }

  /** A writer starts, if there is none yet and the entry is new. */
  method TryInsert(list: SkipList, e: Entry, height: nat, ghost readers: seq<Reader>, ghost before: seq<seq<Entry>>)
    requires list.Valid() && ReadersOk(list.nodes, list.levels, readers) && AllAnswered(list.nodes, list.Contents(), before, readers)
    modifies list
    ensures list.Valid() && ReadersOk(list.nodes, list.levels, readers) && AllAnswered(list.nodes, list.Contents(), before, readers)
    ensures Now(list) == Next(old(Now(list)), ToInsert(e, height))
  {
    hide Less, ListsOk, InsertionOk, ReaderOk, EntriesOf, InsertEntry, LowerBound, AllAnswered, ReadersOk;
    HeightOk(list.nodes, list.levels, list.maxHeight);
    ghost var nodes, levels, contents := list.nodes, list.levels, list.Contents();
    var isNew := IsNew(list, e);
    if list.inserting.None? && 1 <= height <= MAX_HEIGHT && isNew {
      list.StartInsert(e, height);
      ReadersStay(nodes, levels, readers, list.nodes, list.levels);
      AnsweredStays(nodes, contents, before, readers, list.nodes, list.Contents());
    }
  }

  /** The next step of the writer, if there is one. */
  method GoOn(list: SkipList, ghost readers: seq<Reader>, ghost before: seq<seq<Entry>>)
    requires list.Valid() && ReadersOk(list.nodes, list.levels, readers) && AllAnswered(list.nodes, list.Contents(), before, readers)
    modifies list
    ensures list.Valid() && ReadersOk(list.nodes, list.levels, readers) && AllAnswered(list.nodes, list.Contents(), before, readers)
    ensures Now(list) == Next(old(Now(list)), ToWrite)
  {
    hide Less, ListsOk, InsertionOk, ReaderOk, EntriesOf, InsertEntry, LowerBound, AllAnswered, ReadersOk;
    HeightOk(list.nodes, list.levels, list.maxHeight);
    ghost var nodes, levels, contents := list.nodes, list.levels, list.Contents();
    if list.inserting.Some? {
      InsertionParts(list.nodes, list.levels, list.maxHeight, list.inserting.value);
      if list.inserting.value.prepared {
        ghost var ins := list.inserting.value;
        list.PublishLink();
        InsertKeeps(contents, list.nodes[ins.node].entry);
      } else {
        list.PrepareLink();
      }
      ReadersStay(nodes, levels, readers, list.nodes, list.levels);
      AnsweredStays(nodes, contents, before, readers, list.nodes, list.Contents());
    }
  }

  /** The next step of a reader, if it goes on. */
  method ReadOn(list: SkipList, j: nat, readers: seq<Reader>, ghost before: seq<seq<Entry>>) returns (readers': seq<Reader>)
    requires list.Valid() && ReadersOk(list.nodes, list.levels, readers) && AllAnswered(list.nodes, list.Contents(), before, readers)
    ensures ReadersOk(list.nodes, list.levels, readers') && AllAnswered(list.nodes, list.Contents(), before, readers')
    ensures ReadersMove(list.levels, readers, ToReadLink(j), readers')
  {
    hide Forward, Less, ListsOk, InsertionOk, ReaderOk, EntriesOf, InsertEntry, LowerBound, Sorted, Splits;
    readers' := readers;
    if j < |readers| && readers[j].found.None? {
      var r := list.ReadLink(readers[j]);
      ContentsSorted(list);
      assert Answered(list.nodes, list.Contents(), before[j], readers[j]);
      LowerBoundAnswers(list.nodes, list.Contents(), before[j], r);
      readers' := readers[j := r];
    }
  }
}
