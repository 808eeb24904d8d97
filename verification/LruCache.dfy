/** The LRU cache (util/cache.cc): two circular lists, a hash table and reference counts. */
module LruCaches {
  import opened Coding
  import opened Logs
  import opened HandleTables

  // ------------------------------------------------------------------ circular lists

  /** The entries of a list, oldest first; the head is a dummy entry. */
  ghost predicate ListOk(head: LRUHandle, s: seq<LRUHandle>)
    reads head`next, head`prev, s`next, s`prev
  {
    head !in s && Distinct(s) && NextOk(head, s) && PrevOk(head, s)
  }

  ghost predicate NextOk(head: LRUHandle, s: seq<LRUHandle>)
    reads head`next, s`next
  {
    && head.next == (if |s| == 0 then head else s[0])
    && forall i {:trigger s[i].next} :: 0 <= i < |s| ==> s[i].next == if i + 1 < |s| then s[i + 1] else head
  }

  ghost predicate PrevOk(head: LRUHandle, s: seq<LRUHandle>)
    reads head`prev, s`prev
  {
    && head.prev == (if |s| == 0 then head else s[|s| - 1])
    && forall i {:trigger s[i].prev} :: 0 <= i < |s| ==> s[i].prev == if i > 0 then s[i - 1] else head
  }

  /** What stands before and after an entry. */
  function Before(head: LRUHandle, s: seq<LRUHandle>, i: nat): LRUHandle
    requires i < |s|
  {
    if i > 0 then s[i - 1] else head
  }

  function After(head: LRUHandle, s: seq<LRUHandle>, i: nat): LRUHandle
    requires i < |s|
  {
    if i + 1 < |s| then s[i + 1] else head
  }

  function Cut(s: seq<LRUHandle>, i: nat): seq<LRUHandle>
    requires i < |s|
  {
    s[..i] + s[i + 1..]
  }

  /** A list without one of its entries. */
  function Without(s: seq<LRUHandle>, e: LRUHandle?): (r: seq<LRUHandle>)
    ensures e !in s ==> r == s
    ensures forall x :: x in r ==> x in s
  {
    if s == [] then [] else if s[0] == e then s[1..] else [s[0]] + Without(s[1..], e)
  }

  lemma {:induction false} WithoutAt(s: seq<LRUHandle>, i: nat)
    requires i < |s| && Distinct(s)
    ensures Without(s, s[i]) == Cut(s, i)
  {
    if i > 0 {
      var rest := s[1..];
      assert rest[i - 1] == s[i] && s[0] != s[i];
      WithoutAt(rest, i - 1);
      assert [s[0]] + Cut(rest, i - 1) == Cut(s, i);
    }
  }

  /** A list without an entry has all the others. */
  lemma WithoutHas(s: seq<LRUHandle>, e: LRUHandle?)
    requires Distinct(s)
    ensures Distinct(Without(s, e)) && forall x :: x in Without(s, e) <==> x in s && x != e
  {
    if e in s {
      var i :| 0 <= i < |s| && s[i] == e;
      WithoutAt(s, i);
    }
  }

  /** LRU_Remove. */
  method ListRemove(e: LRUHandle, ghost head: LRUHandle, ghost s: seq<LRUHandle>)
    requires ListOk(head, s) && e in s
    modifies head`next, head`prev, s`next, s`prev
    ensures ListOk(head, Without(s, e))
  {
    hide *;
    ghost var i, t := PlaceOf(e, head, s);
    SetPrev(e.next, e.prev, head, s, i);
    assert PrevOk(head, t);
    SetNext(e.prev, e.next, head, s, i);
    ListIs(head, s, i);
  }

  /** Where an entry stands, and what its links are. */
  lemma PlaceOf(e: LRUHandle, head: LRUHandle, s: seq<LRUHandle>) returns (i: nat, rest: seq<LRUHandle>)
    requires ListOk(head, s) && e in s
    ensures i < |s| && rest == Cut(s, i) && s[i] == e && head !in s && Distinct(s) && NextOk(head, s) && PrevOk(head, s)
    ensures e.next == After(head, s, i) && e.prev == Before(head, s, i)
    ensures After(head, s, i) != e
    ensures After(head, s, i) == head || After(head, s, i) in s
    ensures Before(head, s, i) == head || Before(head, s, i) in s
  {
    i :| 0 <= i < |s| && s[i] == e;
    rest := Cut(s, i);
  }

  lemma ListIs(head: LRUHandle, s: seq<LRUHandle>, i: nat)
    requires i < |s| && Distinct(s) && head !in s && NextOk(head, Cut(s, i)) && PrevOk(head, Cut(s, i))
    ensures ListOk(head, Without(s, s[i]))
  {
    WithoutAt(s, i);
    CutDistinct(s, i);
    hide NextOk, PrevOk, Without;
  }

  lemma CutDistinct(s: seq<LRUHandle>, i: nat)
    requires Distinct(s) && i < |s|
    ensures Distinct(Cut(s, i)) && forall x :: x in Cut(s, i) ==> x in s
  {
  }

  method SetPrev(next: LRUHandle, to: LRUHandle, ghost head: LRUHandle, ghost s: seq<LRUHandle>, ghost i: nat)
    requires PrevOk(head, s) && head !in s && Distinct(s) && i < |s| && next == After(head, s, i) && to == Before(head, s, i)
    modifies next`prev
    ensures PrevOk(head, Cut(s, i))
  {
    next.prev := to;
    ghost var t := Cut(s, i);
    forall k {:trigger t[k].prev} | 0 <= k < |t|
      ensures t[k].prev == if k > 0 then t[k - 1] else head
    {
      assert t[k] == s[if k < i then k else k + 1];
    }
  }

  method SetNext(prev: LRUHandle, to: LRUHandle, ghost head: LRUHandle, ghost s: seq<LRUHandle>, ghost i: nat)
    requires NextOk(head, s) && head !in s && Distinct(s) && i < |s| && prev == Before(head, s, i) && to == After(head, s, i)
    modifies prev`next
    ensures NextOk(head, Cut(s, i))
  {
    prev.next := to;
    ghost var t := Cut(s, i);
    forall k {:trigger t[k].next} | 0 <= k < |t|
      ensures t[k].next == if k + 1 < |t| then t[k + 1] else head
    {
      assert t[k] == s[if k < i then k else k + 1];
    }
  }

  /** LRU_Append: the newest entry goes just before the head. */
  method ListAppend(list: LRUHandle, e: LRUHandle, ghost s: seq<LRUHandle>)
    requires ListOk(list, s) && e !in s && e != list
    modifies list`next, list`prev, s`next, s`prev, e`next, e`prev
    ensures ListOk(list, s + [e])
  {
    e.next := list;
    e.prev := list.prev;
    var last, next := e.prev, e.next;
    last.next := e;
    next.prev := e;
  }

  /** Two lists of known entries with nothing in common. */
  ghost predicate TwoLists(a: LRUHandle, s: seq<LRUHandle>, b: LRUHandle, t: seq<LRUHandle>, known: set<LRUHandle>) {
    && a != b && a !in known && b !in known && Distinct(s) && Distinct(t)
    && (forall i :: 0 <= i < |s| ==> s[i] in known && s[i] !in t)
    && (forall i :: 0 <= i < |t| ==> t[i] in known && t[i] !in s)
  }

  lemma TwoListsLess(a: LRUHandle, s: seq<LRUHandle>, b: LRUHandle, t: seq<LRUHandle>, known: set<LRUHandle>, e: LRUHandle)
    requires TwoLists(a, s, b, t, known)
    ensures TwoLists(a, Without(s, e), b, t, known)
  {
    WithoutHas(s, e);
    hide Without;
    var w := Without(s, e);
    forall i | 0 <= i < |w|
      ensures w[i] in known && w[i] !in t
    {
      assert w[i] in s;
    }
    forall i | 0 <= i < |t|
      ensures t[i] !in w
    {
    }
  }

  lemma TwoListsMore(a: LRUHandle, s: seq<LRUHandle>, b: LRUHandle, t: seq<LRUHandle>, known: set<LRUHandle>, e: LRUHandle)
    requires TwoLists(a, s, b, t, known) && e in known && e !in s && e !in t
    ensures TwoLists(a, s, b, t + [e], known)
  {
  }

  lemma TwoListsMove(a: LRUHandle, s: seq<LRUHandle>, b: LRUHandle, t: seq<LRUHandle>, known: set<LRUHandle>, e: LRUHandle)
    requires TwoLists(a, s, b, t, known) && e in s
    ensures TwoLists(a, Without(s, e), b, t, known)
    ensures TwoLists(a, Without(s, e), b, t + [e], known) && TwoLists(b, t + [e], a, Without(s, e), known)
  {
    assert e in known && e !in t by {
      var i :| 0 <= i < |s| && s[i] == e;
    }
    assert e !in Without(s, e) by {
      WithoutHas(s, e);
    }
    TwoListsLess(a, s, b, t, known, e);
    TwoListsMore(a, Without(s, e), b, t, known, e);
    TwoListsSwap(a, Without(s, e), b, t + [e], known);
    hide TwoLists;
  }

  lemma TwoListsSwap(a: LRUHandle, s: seq<LRUHandle>, b: LRUHandle, t: seq<LRUHandle>, known: set<LRUHandle>)
    requires TwoLists(a, s, b, t, known)
    ensures TwoLists(b, t, a, s, known) && forall x :: x in s ==> x !in t
  {
  }

  /** An entry goes from one list to the end of the other. */
  method MoveEntry(e: LRUHandle, ghost from: LRUHandle, ghost s: seq<LRUHandle>, to: LRUHandle, ghost t: seq<LRUHandle>, ghost known: set<LRUHandle>)
    requires ListOk(from, s) && ListOk(to, t) && TwoLists(from, s, to, t, known) && e in s
    modifies from`next, from`prev, to`next, to`prev, known`next, known`prev
    ensures ListOk(from, Without(s, e)) && ListOk(to, t + [e])
  {
    TwoListsMove(from, s, to, t, known, e);
    hide NextOk, PrevOk, Without;
    ListRemove(e, from, s);
    ListAppend(to, e, t);
  }

  /** An entry leaves its list; the other list stays. */
  method DetachEntry(e: LRUHandle, ghost from: LRUHandle, ghost s: seq<LRUHandle>, ghost other: LRUHandle, ghost t: seq<LRUHandle>, ghost known: set<LRUHandle>)
    requires ListOk(from, s) && ListOk(other, t) && TwoLists(from, s, other, t, known) && e in s
    modifies from`next, from`prev, known`next, known`prev
    ensures ListOk(from, Without(s, e)) && ListOk(other, t)
  {
    hide NextOk, PrevOk, Without;
    ListRemove(e, from, s);
  }

  // ------------------------------------------------------------------ the cache as a value

  /** What the cache holds: the entries no client uses, oldest first, those in use, and
      those passed to their deleters, in order. */
  datatype Shelf = Shelf(lru: seq<LRUHandle>, used: seq<LRUHandle>, deleted: seq<LRUHandle>)

  ghost predicate ShelfOk(b: Shelf, known: set<LRUHandle>) {
    && Distinct(b.lru) && Distinct(b.used) && Distinct(b.deleted)
    && (forall x :: x in b.lru ==> x in known && x !in b.used)
    && (forall x :: x in b.used ==> x in known && x !in b.lru)
    && (forall x :: x in b.deleted ==> x in known)
  }

  /** A client takes a reference on an entry of the cache. */
  function AfterRef(b: Shelf, e: LRUHandle): Shelf {
    if e in b.lru then b.(lru := Without(b.lru, e), used := b.used + [e]) else b
  }

  /** A client gives its last reference on an entry back. */
  function AfterLast(b: Shelf, e: LRUHandle): Shelf {
    if e in b.used then b.(lru := b.lru + [e], used := Without(b.used, e)) else b.(deleted := b.deleted + [e])
  }

  /** An entry leaves the cache: if no client uses it, it is deleted. */
  function AfterErase(b: Shelf, e: LRUHandle?): Shelf {
    if e == null then b
    else if e in b.lru then Shelf(Without(b.lru, e), b.used, b.deleted + [e])
    else b.(used := Without(b.used, e))
  }

  /** The oldest entries that no client uses leave until the rest fits. */
  function AfterEvict(b: Shelf, capacity: nat): Shelf
    decreases |b.lru|
  {
    if Charge(b.lru) + Charge(b.used) <= capacity || b.lru == [] then b
    else AfterEvict(Shelf(b.lru[1..], b.used, b.deleted + [b.lru[0]]), capacity)
  }

  function Charge(s: seq<LRUHandle>): nat {
    if s == [] then 0 else s[0].charge + Charge(s[1..])
  }

  lemma {:induction false} ChargeMore(s: seq<LRUHandle>, e: LRUHandle)
    ensures Charge(s + [e]) == Charge(s) + e.charge
  {
    if s != [] {
      ChargeMore(s[1..], e);
      assert (s + [e])[1..] == s[1..] + [e];
    }
  }

  lemma {:induction false} ChargeWithout(s: seq<LRUHandle>, e: LRUHandle)
    requires e in s
    ensures Charge(Without(s, e)) == Charge(s) - e.charge
  {
    if s[0] != e {
      ChargeWithout(s[1..], e);
      assert ([s[0]] + Without(s[1..], e))[1..] == Without(s[1..], e);
    }
  }

  function TotalCharge(b: Shelf): nat {
    Charge(b.lru) + Charge(b.used)
  }

  // ------------------------------------------------------------------ reference counts

  /** The fields of an entry fit the shelf: an entry of the cache has the cache's reference
      and those of clients, and is in use if there are any; another one has those of
      clients, and without them it is deleted. */
  ghost predicate CountOk(h: LRUHandle, refs: nat, inCache: bool, b: Shelf, held: nat) {
    && refs == held + (if inCache then 1 else 0)
    && (inCache <==> h in b.lru || h in b.used)
    && (h in b.lru <==> inCache && held == 0)
    && (h in b.deleted <==> refs == 0)
  }

  /** All entries but one fit. */
  ghost predicate CountsBut(known: set<LRUHandle>, b: Shelf, held: multiset<LRUHandle>, but: LRUHandle?)
    reads (known - Owner(but))`refs, (known - Owner(but))`inCache
  {
    && (forall h :: h in known - Owner(but) ==> CountOk(h, h.refs, h.inCache, b, held[h]))
    && (forall h :: h in held ==> h in known)
  }

  /** A new entry, with one reference for a client. */
  lemma OneMore(known: set<LRUHandle>, b: Shelf, held: multiset<LRUHandle>, e: LRUHandle)
    requires CountsBut(known, b, held, null) && ShelfOk(b, known) && e !in known && e.refs == 1 && !e.inCache
    ensures CountsBut(known + {e}, b, held + multiset{e}, null) && ShelfOk(b, known + {e})
    ensures held[e] == 0 && e !in b.lru && e !in b.used && e !in b.deleted
  {
    hide Distinct;
  }

  lemma AllFit(known: set<LRUHandle>, b: Shelf, held: multiset<LRUHandle>, e: LRUHandle)
    requires CountsBut(known, b, held, e) && CountOk(e, e.refs, e.inCache, b, held[e])
    ensures CountsBut(known, b, held, null)
  {
    hide CountOk;
  }

  /** Two shelves with the same entries but for one. */
  ghost predicate SameBut(b: Shelf, c: Shelf, e: LRUHandle, known: set<LRUHandle>) {
    forall h :: h in known && h != e ==>
      (h in b.lru <==> h in c.lru) && (h in b.used <==> h in c.used) && (h in b.deleted <==> h in c.deleted)
  }

  lemma CountsSame(known: set<LRUHandle>, b: Shelf, held: multiset<LRUHandle>, c: Shelf, held': multiset<LRUHandle>, e: LRUHandle)
    requires CountsBut(known, b, held, null) || CountsBut(known, b, held, e)
    requires SameBut(b, c, e, known) && e in known && held' == held[e := held'[e]]
    ensures CountsBut(known, c, held', e)
  {
    forall h | h in known && h != e
      ensures CountOk(h, h.refs, h.inCache, c, held'[h])
    {
      assert CountOk(h, h.refs, h.inCache, b, held[h]);
    }
  }

  lemma RefShelf(b: Shelf, e: LRUHandle, known: set<LRUHandle>)
    requires ShelfOk(b, known) && (e in b.lru || e in b.used)
    ensures var c := AfterRef(b, e);
            && ShelfOk(c, known) && SameBut(b, c, e, known) && TotalCharge(c) == TotalCharge(b)
            && e in known && e !in c.lru && e in c.used && (e in c.deleted <==> e in b.deleted)
  {
    if e in b.lru {
      WithoutHas(b.lru, e);
      ChargeMore(b.used, e);
      ChargeWithout(b.lru, e);
      hide Without, Charge;
    }
  }

  lemma LastShelf(b: Shelf, e: LRUHandle, known: set<LRUHandle>)
    requires ShelfOk(b, known) && e in known && e !in b.lru && e !in b.deleted
    ensures var c := AfterLast(b, e);
            && ShelfOk(c, known) && SameBut(b, c, e, known) && TotalCharge(c) == TotalCharge(b)
            && e !in c.used && (e in c.lru <==> e in b.used) && (e in c.deleted <==> e !in b.used)
  {
    if e in b.used {
      WithoutHas(b.used, e);
      ChargeMore(b.lru, e);
      ChargeWithout(b.used, e);
      hide Without, Charge;
    }
  }

  lemma EraseShelf(b: Shelf, e: LRUHandle, known: set<LRUHandle>)
    requires ShelfOk(b, known) && (e in b.lru || e in b.used) && e !in b.deleted
    ensures var c := AfterErase(b, e);
            && ShelfOk(c, known) && SameBut(b, c, e, known) && TotalCharge(c) == TotalCharge(b) - e.charge
            && e in known && e !in c.lru && e !in c.used && (e in c.deleted <==> e in b.lru)
  {
    WithoutHas(b.lru, e);
    WithoutHas(b.used, e);
    if e in b.lru {
      ChargeWithout(b.lru, e);
    } else {
      ChargeWithout(b.used, e);
    }
    hide Without, Charge;
  }

  lemma ShelfTwo(a: LRUHandle, b: LRUHandle, c: Shelf, known: set<LRUHandle>)
    requires a != b && a !in known && b !in known && ShelfOk(c, known)
    ensures TwoLists(a, c.lru, b, c.used, known) && TwoLists(b, c.used, a, c.lru, known)
  {
  }

  /** The head of an empty list. */
  method NewHead() returns (head: LRUHandle)
    ensures fresh(head) && ListOk(head, [])
  {
    head := new LRUHandle([], 0, "", 0);
    head.next, head.prev := head, head;
  }

  lemma NothingHeld()
    ensures ShelfOk(Shelf([], [], []), {}) && TotalCharge(Shelf([], [], [])) == 0
    ensures CountsBut({}, Shelf([], [], []), multiset{}, null)
  {
  }

  // ------------------------------------------------------------------ the cache

  class LRUCache {
    var capacity: nat
    var usage: nat
    const lru: LRUHandle            // dummy head; lru.next is the oldest entry
    const inUse: LRUHandle          // dummy head of the entries in use by clients
    const table: HandleTable
    ghost var shelf: Shelf
    ghost var held: multiset<LRUHandle>   // the references of clients
    ghost var known: set<LRUHandle>       // all entries ever made

    ghost predicate Heads()
      reads this`known
    {
      lru != inUse && lru !in known && inUse !in known
    }

    ghost predicate Lists()
      reads this`shelf, this`known, lru`next, lru`prev, inUse`next, inUse`prev, known`next, known`prev
    {
      Heads() && ShelfOk(shelf, known) && ListOk(lru, shelf.lru) && ListOk(inUse, shelf.used)
    }

    ghost predicate Core()
      reads this`shelf, this`known, this`held, this`usage, lru`next, lru`prev, inUse`next, inUse`prev
      reads known`next, known`prev, known`refs, known`inCache
    {
      Lists() && CountsBut(known, shelf, held, null) && usage == TotalCharge(shelf)
    }

    ghost predicate Tabled()
      reads this`known, table`length, table`elems, table`list, table`chains, table`contents, table`entries, table.list, known`nextHash
    {
      table.entries <= known && table.Ok() && forall h :: h in known ==> h.hash == table.hashOf(h.key)
    }

    ghost predicate Valid()
      reads this, lru, inUse, known, table, table.list
    {
      Core() && Tabled() && Cached(table.contents, shelf, null)
    }

    constructor (ghost hashOf: Bytes -> Word)
      ensures Valid() && capacity == 0 && table.contents == map[] && table.hashOf == hashOf
      ensures shelf == Shelf([], [], []) && held == multiset{} && known == {}
      ensures fresh(lru) && fresh(inUse) && fresh(table) && fresh(table.list)
    {
      hide ListOk, HandleTable.Ok, ShelfOk, CountsBut;
      NothingHeld();
      capacity, usage := 0, 0;
      shelf, held, known := Shelf([], [], []), multiset{}, {};
      var a := NewHead();
      var b := NewHead();
      lru, inUse := a, b;
      table := new HandleTable(hashOf);
    }

    /** Unref of an entry that has one reference too many: the last one takes it with it,
        and the last one of a client moves it to the LRU list. */
    method Unref(e: LRUHandle)
      requires Lists() && CountsBut(known, shelf, held, e) && Owed(e)
      modifies this`shelf, e`refs, lru`next, lru`prev, inUse`next, inUse`prev, known`next, known`prev
      ensures Lists() && CountsBut(known, shelf, held, null)
      ensures shelf == if held[e] == 0 then AfterLast(old(shelf), e) else old(shelf)
    {
      UnrefFacts(e);
      hide ShelfOk, AfterLast, CountsBut, CountOk;
      e.refs := e.refs - 1;
      if e.refs == 0 {
        // the deleter is called
        shelf := AfterLast(shelf, e);
      } else if e.inCache && e.refs == 1 {
        ToLru(e);
      }
      AllFit(known, shelf, held, e);
    }

    /** The entry has one reference more than fits, and is not on the LRU list. */
    ghost predicate Owed(e: LRUHandle)
      reads this`shelf, this`held, this`known, e`refs, e`inCache
    {
      && e in known && e !in shelf.lru && e !in shelf.deleted && (e.inCache <==> e in shelf.used)
      && e.refs == held[e] + (if e.inCache then 1 else 0) + 1
    }

    lemma UnrefFacts(e: LRUHandle)
      requires Lists() && CountsBut(known, shelf, held, e) && Owed(e)
      ensures ShelfOk(AfterLast(shelf, e), known) && CountsBut(known, AfterLast(shelf, e), held, e)
      ensures e !in shelf.used ==> AfterLast(shelf, e).lru == shelf.lru && AfterLast(shelf, e).used == shelf.used
      ensures CountOk(e, e.refs - 1, e.inCache, if held[e] == 0 then AfterLast(shelf, e) else shelf, held[e])
    {
      LastShelf(shelf, e, known);
      CountsSame(known, shelf, held, AfterLast(shelf, e), held, e);
    }

    method ToLru(e: LRUHandle)
      requires Lists() && e in shelf.used && ShelfOk(AfterLast(shelf, e), known)
      modifies this`shelf, lru`next, lru`prev, inUse`next, inUse`prev, known`next, known`prev
      ensures Lists() && shelf == AfterLast(old(shelf), e)
    {
      ShelfTwo(lru, inUse, shelf, known);
      hide ListOk, TwoLists, Without, ShelfOk;
      MoveEntry(e, inUse, shelf.used, lru, shelf.lru, known);
      shelf := AfterLast(shelf, e);
    }

    method ToInUse(e: LRUHandle)
      requires Lists() && e in shelf.lru && ShelfOk(AfterRef(shelf, e), known)
      modifies this`shelf, lru`next, lru`prev, inUse`next, inUse`prev, known`next, known`prev
      ensures Lists() && shelf == AfterRef(old(shelf), e)
    {
      ShelfTwo(lru, inUse, shelf, known);
      hide ListOk, TwoLists, Without, ShelfOk;
      MoveEntry(e, lru, shelf.lru, inUse, shelf.used, known);
      shelf := AfterRef(shelf, e);
    }

    /** LRU_Remove of an entry of either list. */
    method Detach(e: LRUHandle)
      requires Lists() && (e in shelf.lru || e in shelf.used) && ShelfOk(Off(shelf, e), known)
      modifies this`shelf, lru`next, lru`prev, inUse`next, inUse`prev, known`next, known`prev
      ensures Lists() && shelf == Off(old(shelf), e)
    {
      ShelfTwo(lru, inUse, shelf, known);
      ghost var onLru := e in shelf.lru;
      assert if onLru then Without(shelf.used, e) == shelf.used else Without(shelf.lru, e) == shelf.lru;
      hide ListOk, TwoLists, Without;
      DetachEntry(e, if onLru then lru else inUse, if onLru then shelf.lru else shelf.used,
                  if onLru then inUse else lru, if onLru then shelf.used else shelf.lru, known);
      shelf := Off(shelf, e);
    }

    /** Release: a client gives a reference back. */
    method Release(e: LRUHandle)
      requires Valid() && held[e] > 0
      modifies this`shelf, this`held, lru`next, lru`prev, inUse`next, inUse`prev, known`next, known`prev, known`refs
      ensures Valid() && held == old(held) - multiset{e}
      ensures shelf == if held[e] == 0 then AfterLast(old(shelf), e) else old(shelf)
    {
      hide Core, AfterLast, Cached, Tabled;
      LastCachedHere(e);
      DropOne(e);
    }

    lemma LastCachedHere(e: LRUHandle)
      requires Core() && Cached(table.contents, shelf, null)
      ensures Cached(table.contents, AfterLast(shelf, e), null)
    {
      LastCached(table.contents, shelf, e);
    }

    method DropOne(e: LRUHandle)
      requires Core() && held[e] > 0
      modifies this`shelf, this`held, lru`next, lru`prev, inUse`next, inUse`prev, known`next, known`prev, known`refs
      ensures Core() && held == old(held) - multiset{e}
      ensures shelf == if held[e] == 0 then AfterLast(old(shelf), e) else old(shelf)
    {
      hide ShelfOk, AfterLast, CountsBut, TotalCharge;
      ReleaseFacts(e);
      held := held - multiset{e};
      Unref(e);
    }

    lemma ReleaseFacts(e: LRUHandle)
      requires Core() && held[e] > 0
      ensures CountsBut(known, shelf, held - multiset{e}, e) && e in known && e !in shelf.lru && e !in shelf.deleted
      ensures (e.inCache <==> e in shelf.used) && e.refs == held[e] + (if e.inCache then 1 else 0)
      ensures TotalCharge(AfterLast(shelf, e)) == TotalCharge(shelf)
    {
      assert CountOk(e, e.refs, e.inCache, shelf, held[e]);
      CountsSame(known, shelf, held, shelf, held - multiset{e}, e);
      LastShelf(shelf, e, known);
    }

    /** Ref of an entry of the cache, by a client. */
    method Ref(e: LRUHandle)
      requires Core() && (e in shelf.lru || e in shelf.used)
      modifies this`shelf, this`held, lru`next, lru`prev, inUse`next, inUse`prev, known`next, known`prev, known`refs
      ensures Core() && held == old(held) + multiset{e} && shelf == AfterRef(old(shelf), e)
    {
      hide Core, ShelfOk, AfterRef, CountsBut, CountOk, TotalCharge;
      RefFacts(e);
      UseEntry(e);
      AddRef(e);
    }

    /** An entry that only the cache refers to goes to the in-use list. */
    method UseEntry(e: LRUHandle)
      requires Lists() && (e.refs == 1 && e.inCache <==> e in shelf.lru) && ShelfOk(AfterRef(shelf, e), known)
      modifies this`shelf, lru`next, lru`prev, inUse`next, inUse`prev, known`next, known`prev
      ensures Lists() && shelf == AfterRef(old(shelf), e)
    {
      hide ShelfOk;
      if e.refs == 1 && e.inCache {
        ToInUse(e);
      }
    }

    method AddRef(e: LRUHandle)
      requires Lists() && CountsBut(known, shelf, held + multiset{e}, e) && CountOk(e, e.refs + 1, e.inCache, shelf, held[e] + 1)
      requires usage == TotalCharge(shelf)
      modifies this`held, e`refs
      ensures held == old(held) + multiset{e} && Core()
    {
      hide CountOk, ShelfOk, TotalCharge;
      e.refs := e.refs + 1;
      held := held + multiset{e};
      AllFit(known, shelf, held, e);
    }

    lemma RefFacts(e: LRUHandle)
      requires Core() && (e in shelf.lru || e in shelf.used)
      ensures Lists() && e in known && (e.refs == 1 && e.inCache <==> e in shelf.lru)
      ensures ShelfOk(AfterRef(shelf, e), known) && CountsBut(known, AfterRef(shelf, e), held + multiset{e}, e)
      ensures TotalCharge(AfterRef(shelf, e)) == usage
      ensures CountOk(e, e.refs + 1, e.inCache, AfterRef(shelf, e), held[e] + 1)
    {
      RefShelf(shelf, e, known);
      assert CountOk(e, e.refs, e.inCache, shelf, held[e]);
      CountsSame(known, shelf, held, AfterRef(shelf, e), held + multiset{e}, e);
    }

    /** Finishes taking an entry out of the cache; it has left the table already. */
    method FinishErase(e: LRUHandle?) returns (erased: bool)
      requires Core() && Cached(table.contents, shelf, e) && (e != null ==> e in shelf.lru || e in shelf.used)
      modifies this`shelf, this`usage, lru`next, lru`prev, inUse`next, inUse`prev, known`next, known`prev, known`refs, known`inCache
      ensures Core() && Cached(table.contents, shelf, null) && shelf == AfterErase(old(shelf), e) && erased == (e != null)
    {
      hide Core, ShelfOk, CountsBut, Cached, Off, Lists, CountOk, TotalCharge;
      if e != null {
        EraseFacts(e);
        StartErase(e);
        Unref(e);
        CoreIs();
      }
      return e != null;
    }

    lemma CoreIs()
      requires Lists() && CountsBut(known, shelf, held, null) && usage == TotalCharge(shelf)
      ensures Core()
    {
    }

    /** The entry leaves its list, and the cache no longer counts it. */
    method StartErase(e: LRUHandle)
      requires Lists() && Leaving(e)
      modifies this`usage, this`shelf, lru`next, lru`prev, inUse`next, inUse`prev, known`next, known`prev, e`inCache
      ensures Lists() && CountsBut(known, shelf, held, e) && Owed(e) && !e.inCache
      ensures shelf == Off(old(shelf), e) && usage == old(usage) - e.charge
    {
      hide ShelfOk, Off, CountOk;
      Detach(e);
      e.inCache := false;
      usage := usage - e.charge;
    }

    /** What holds of an entry that leaves its list. */
    ghost predicate Leaving(e: LRUHandle)
      reads this`shelf, this`known, this`held, this`usage, known`refs, known`inCache, e`refs
    {
      var c := Off(shelf, e);
      && e in known && (e in shelf.lru || e in shelf.used) && e !in c.lru && e !in c.used && e !in c.deleted
      && e.refs == held[e] + 1 && usage >= e.charge && ShelfOk(c, known) && CountsBut(known, c, held, e)
    }

    /** The entry of a key leaves the table. */
    method TableRemove(key: Bytes, hash: Word) returns (e: LRUHandle?)
      requires Core() && Tabled() && Cached(table.contents, shelf, null) && hash == table.hashOf(key)
      modifies table`elems, table`chains, table`contents, table.list, known`nextHash
      ensures Core() && Tabled() && Cached(table.contents, shelf, e) && e == Find(shelf, key)
    {
      hide ShelfOk, ListOk, CountsBut, Cached, Tabled, Find, TotalCharge;
      ghost var contents := table.contents;
      e := TakeOut(key, hash);
      FindIsTable(contents, shelf, key);
      RemovedCached(contents, shelf, key);
    }

    method TakeOut(key: Bytes, hash: Word) returns (e: LRUHandle?)
      requires Tabled() && hash == table.hashOf(key)
      modifies table`elems, table`chains, table`contents, table.list, known`nextHash
      ensures Tabled() && table.contents == old(table.contents) - {key}
      ensures e == if key in old(table.contents) then old(table.contents)[key] else null
    {
      hide HandleTable.Ok;
      e := table.Remove(key, hash);
    }

    /** The entry of a key leaves the cache. */
    method EraseKey(key: Bytes, hash: Word) returns (erased: bool)
      requires Valid() && hash == table.hashOf(key)
      modifies this`shelf, this`usage, table`elems, table`chains, table`contents, table.list, known, lru, inUse
      ensures Valid() && shelf == AfterErase(old(shelf), Find(old(shelf), key)) && erased == (Find(old(shelf), key) != null)
    {
      hide Core, Tabled, Cached, Find, AfterErase;
      var e := TableRemove(key, hash);
      FoundOnShelf(shelf, key);
      erased := FinishErase(e);
    }

    method Erase(key: Bytes, hash: Word)
      requires Valid() && hash == table.hashOf(key)
      modifies this`shelf, this`usage, table`elems, table`chains, table`contents, table.list, known, lru, inUse
      ensures Valid() && shelf == AfterErase(old(shelf), Find(old(shelf), key))
    {
      hide Core, Tabled, Cached, Find, AfterErase;
      var erased := EraseKey(key, hash);
    }

    /** Lookup: the entry of the key, with a reference for the client. */
    method Lookup(key: Bytes, hash: Word) returns (e: LRUHandle?)
      requires Valid() && hash == table.hashOf(key)
      modifies this`shelf, this`held, known, lru, inUse
      ensures Valid() && e == Find(old(shelf), key)
      ensures if e == null then shelf == old(shelf) && held == old(held)
              else shelf == AfterRef(old(shelf), e) && held == old(held) + multiset{e}
    {
      hide Core, Tabled, Cached, Find, AfterRef;
      e := TableLookup(key, hash);
      if e != null {
        FoundOnShelf(shelf, key);
        RefFound(e);
      }
    }

    method RefFound(e: LRUHandle)
      requires Valid() && (e in shelf.lru || e in shelf.used)
      modifies this`shelf, this`held, lru`next, lru`prev, inUse`next, inUse`prev, known`next, known`prev, known`refs
      ensures Valid() && held == old(held) + multiset{e} && shelf == AfterRef(old(shelf), e)
    {
      hide Core, Tabled, Cached, AfterRef;
      RefCached(e);
      Ref(e);
    }

    method TableLookup(key: Bytes, hash: Word) returns (e: LRUHandle?)
      requires Tabled() && Cached(table.contents, shelf, null) && hash == table.hashOf(key)
      ensures e == Find(shelf, key)
    {
      FindIsTable(table.contents, shelf, key);
      hide Cached, HandleTable.Ok, Find;
      e := table.Lookup(key, hash);
    }

    lemma RefCached(e: LRUHandle)
      requires Core() && Cached(table.contents, shelf, null)
      ensures Cached(table.contents, AfterRef(shelf, e), null)
    {
      WithoutHas(shelf.lru, e);
      hide Without, Distinct, CountsBut;
    }

    lemma EraseFacts(e: LRUHandle)
      requires Core() && Cached(table.contents, shelf, e) && (e in shelf.lru || e in shelf.used)
      ensures Lists() && Leaving(e) && usage - e.charge == TotalCharge(AfterErase(shelf, e))
      ensures AfterErase(shelf, e) == if held[e] == 0 then AfterLast(Off(shelf, e), e) else Off(shelf, e)
      ensures Cached(table.contents, AfterErase(shelf, e), null)
    {
      assert CountOk(e, e.refs, e.inCache, shelf, held[e]) by {
        ShelfTwo(lru, inUse, shelf, known);
      }
      EraseShelf(shelf, e, known);
      OffShelf(shelf, e, known);
      CountsSame(known, shelf, held, Off(shelf, e), held, e);
      EraseCached(table.contents, shelf, e);
    }

    method SetCapacity(capacity: nat)
      requires Valid()
      modifies this`capacity
      ensures Valid() && this.capacity == capacity
    {
      hide Core, Tabled, Cached;
      this.capacity := capacity;
    }

    /** Insert: a new entry, with a reference for the client, replaces the entry of its
        key; then the oldest entries that no client uses leave until the rest fits. */
    method Insert(key: Bytes, hash: Word, value: string, charge: nat) returns (e: LRUHandle)
      requires Valid() && hash == table.hashOf(key)
      modifies this`shelf, this`usage, this`held, this`known, table, table.list, known, lru, inUse
      ensures Valid() && fresh(e) && e.key == key && e.value == value && e.charge == charge
      ensures known == old(known) + {e} && held == old(held) + multiset{e}
      ensures shelf == AfterEvict(if capacity > 0 then AfterInsert(old(shelf), e) else old(shelf), capacity)
      ensures usage <= capacity || shelf.lru == []
      ensures table.list == old(table.list) || fresh(table.list)
    {
      hide Core, Tabled, Cached, AfterEvict, AfterInsert;
      e := NewEntry(key, hash, value, charge);
      if capacity > 0 {
        CacheEntry(e);
      }
      Evict();
    }

    method NewEntry(key: Bytes, hash: Word, value: string, charge: nat) returns (e: LRUHandle)
      requires Valid() && hash == table.hashOf(key)
      modifies this`held, this`known
      ensures Valid() && fresh(e) && e.key == key && e.value == value && e.charge == charge
      ensures known == old(known) + {e} && held == old(held) + multiset{e} && Loose(e)
    {
      hide ListOk, Cached, HandleTable.Ok, TotalCharge, ShelfOk, CountsBut;
      e := new LRUHandle(key, hash, value, charge);
      OneMore(known, shelf, held, e);
      held := held + multiset{e};
      known := known + {e};
    }

    /** An entry that only one client refers to. */
    ghost predicate Loose(e: LRUHandle)
      reads this`known, this`held, this`shelf, e`refs, e`inCache
    {
      && e in known && e.refs == 1 && !e.inCache && held[e] == 1
      && e !in shelf.lru && e !in shelf.used && e !in shelf.deleted
    }

    /** The cache takes a reference on the entry. */
    method CacheEntry(e: LRUHandle)
      requires Valid() && Loose(e)
      modifies this`shelf, this`usage, table, table.list, known, lru, inUse
      ensures Valid() && shelf == AfterInsert(old(shelf), e)
      ensures table.list == old(table.list) || fresh(table.list)
    {
      hide Core, Tabled, Cached, AfterErase, Find;
      ghost var b := shelf;
      StartCache(e);
      var replaced := TablePut(e, b);
      FoundOnShelf(b, e.key);
      var erased := FinishErase(replaced);
    }

    /** The entry goes to the in-use list. */
    method StartCache(e: LRUHandle)
      requires Core() && Loose(e)
      modifies this`shelf, this`usage, lru`next, lru`prev, inUse`next, inUse`prev, known`next, known`prev, e`refs, e`inCache
      ensures Core() && shelf == old(shelf).(used := old(shelf.used) + [e])
    {
      StartFacts(e);
      hide ShelfOk, ListOk, CountOk, Charge;
      e.refs := e.refs + 1;
      e.inCache := true;
      AppendInUse(e);
      usage := usage + e.charge;
    }

    lemma StartFacts(e: LRUHandle)
      requires Core() && Loose(e)
      ensures var c := shelf.(used := shelf.used + [e]);
              && ShelfOk(c, known) && TotalCharge(c) == TotalCharge(shelf) + e.charge
              && CountOk(e, e.refs + 1, true, c, held[e]) && CountsBut(known, c, held, e)
    {
      ChargeMore(shelf.used, e);
      var c := shelf.(used := shelf.used + [e]);
      CountsSame(known, shelf, held, c, held, e);
    }

    method AppendInUse(e: LRUHandle)
      requires Lists() && e in known && e !in shelf.lru && e !in shelf.used && ShelfOk(shelf.(used := shelf.used + [e]), known)
      modifies this`shelf, lru`next, lru`prev, inUse`next, inUse`prev, known`next, known`prev
      ensures Lists() && shelf == old(shelf).(used := old(shelf.used) + [e])
    {
      ShelfTwo(lru, inUse, shelf, known);
      hide NextOk, PrevOk;
      ListAppend(inUse, e, shelf.used);
      shelf := shelf.(used := shelf.used + [e]);
    }

    /** The entry goes to the table; what stood there under its key is returned. */
    method TablePut(e: LRUHandle, ghost b: Shelf) returns (replaced: LRUHandle?)
      requires Core() && Tabled() && Cached(table.contents, b, null) && shelf == b.(used := b.used + [e])
      requires e in known && e !in b.lru && e !in b.used
      modifies table, table.list, known`nextHash
      ensures Core() && Tabled() && Cached(table.contents, shelf, replaced) && replaced == Find(b, e.key)
      ensures table.list == old(table.list) || fresh(table.list)
    {
      hide ShelfOk, ListOk, CountsBut, Cached, Tabled, Find, TotalCharge;
      ghost var contents := table.contents;
      NotCached(contents, b, e);
      replaced := PutIn(e);
      FindIsTable(contents, b, e.key);
      PutCached(contents, b, e);
    }

    method PutIn(e: LRUHandle) returns (replaced: LRUHandle?)
      requires Tabled() && e in known && (e.key in table.contents ==> table.contents[e.key] != e)
      modifies table, table.list, known`nextHash
      ensures Tabled() && table.contents == old(table.contents)[e.key := e]
      ensures replaced == if e.key in old(table.contents) then old(table.contents)[e.key] else null
      ensures table.list == old(table.list) || fresh(table.list)
    {
      hide HandleTable.Ok, Nodes;
      table.NotNode(e);
      replaced := table.Insert(e);
    }

    /** The oldest entries that no client uses leave until the rest fits. */
    method Evict()
      requires Valid()
      modifies this`shelf, this`usage, table`elems, table`chains, table`contents, table.list, known, lru, inUse
      ensures Valid() && shelf == AfterEvict(old(shelf), capacity) && (usage <= capacity || shelf.lru == [])
    {
      hide Core, Tabled, Cached, AfterEvict, TotalCharge, WithoutOldest;
      ghost var b := shelf;
      OldestIs();
      while usage > capacity && lru.next != lru
        invariant Valid() && AfterEvict(shelf, capacity) == AfterEvict(b, capacity)
        invariant (lru.next == lru <==> shelf.lru == []) && usage == TotalCharge(shelf)
        invariant shelf.lru != [] ==> lru.next == shelf.lru[0]
        decreases |shelf.lru|
      {
        EvictMore(shelf, capacity);
        EvictOldest();
        OldestIs();
      }
      EvictDone(shelf, capacity);
    }

    lemma OldestIs()
      requires Core()
      ensures (lru.next == lru <==> shelf.lru == []) && usage == TotalCharge(shelf)
      ensures shelf.lru != [] ==> lru.next == shelf.lru[0]
    {
      hide ShelfOk, CountsBut, TotalCharge;
    }

    /** The oldest entry of the LRU list leaves the cache. */
    method EvictOldest()
      requires Valid() && shelf.lru != [] && lru.next == shelf.lru[0]
      modifies this`shelf, this`usage, table`elems, table`chains, table`contents, table.list, known, lru, inUse
      ensures Valid() && shelf == WithoutOldest(old(shelf))
    {
      OldestFound();
      hide Core, Tabled, Cached, AfterErase, Find;
      var oldest := lru.next;
      var erased := EraseKey(oldest.key, oldest.hash);
    }

    lemma OldestFound()
      requires Valid() && shelf.lru != []
      ensures var e := shelf.lru[0];
              Find(shelf, e.key) == e && e.hash == table.hashOf(e.key) && AfterErase(shelf, e) == WithoutOldest(shelf)
    {
      var e := shelf.lru[0];
      FindIsTable(table.contents, shelf, e.key);
      hide ListOk, CountsBut, HandleTable.Ok, Find;
      assert e in shelf.lru;
    }

    /** Prune: all entries that no client uses leave the cache. */
    method Prune()
      requires Valid()
      modifies this`shelf, this`usage, table`elems, table`chains, table`contents, table.list, known, lru, inUse
      ensures Valid() && shelf == Shelf([], old(shelf.used), old(shelf.deleted) + old(shelf.lru))
    {
      hide Core, Tabled, Cached;
      ghost var b := shelf;
      OldestIs();
      while lru.next != lru
        invariant Valid() && shelf.used == b.used && shelf.deleted + shelf.lru == b.deleted + b.lru
        invariant (lru.next == lru <==> shelf.lru == []) && (shelf.lru != [] ==> lru.next == shelf.lru[0])
        decreases |shelf.lru|
      {
        assert shelf.deleted + shelf.lru == shelf.deleted + [shelf.lru[0]] + shelf.lru[1..];
        EvictOldest();
        OldestIs();
      }
      assert shelf.deleted + [] == shelf.deleted;
    }
  }

  /** A new entry replaces that of its key. */
  function AfterInsert(b: Shelf, e: LRUHandle): Shelf {
    AfterErase(b.(used := b.used + [e]), Find(b, e.key))
  }

  function WithoutOldest(b: Shelf): Shelf
    requires b.lru != []
  {
    Shelf(b.lru[1..], b.used, b.deleted + [b.lru[0]])
  }

  lemma EvictMore(b: Shelf, capacity: nat)
    requires TotalCharge(b) > capacity && b.lru != []
    ensures |WithoutOldest(b).lru| < |b.lru|
    ensures AfterEvict(b, capacity) == AfterEvict(WithoutOldest(b), capacity)
  {
  }

  lemma EvictDone(b: Shelf, capacity: nat)
    requires TotalCharge(b) <= capacity || b.lru == []
    ensures AfterEvict(b, capacity) == b
  {
  }

  /** Only the oldest entries leave, and no more of them than need to. */
  lemma {:induction false} EvictedOldest(b: Shelf, capacity: nat) returns (n: nat)
    ensures n <= |b.lru| && AfterEvict(b, capacity) == Shelf(b.lru[n..], b.used, b.deleted + b.lru[..n])
    ensures n < |b.lru| ==> Charge(b.lru[n..]) + Charge(b.used) <= capacity
    ensures n > 0 ==> Charge(b.lru[n - 1..]) + Charge(b.used) > capacity
    decreases |b.lru|
  {
    if TotalCharge(b) <= capacity || b.lru == [] {
      n := 0;
    } else {
      var c := WithoutOldest(b);
      var m := EvictedOldest(c, capacity);
      n := m + 1;
      assert c.lru[m..] == b.lru[n..] && c.deleted + c.lru[..m] == b.deleted + b.lru[..n];
      if m > 0 {
        assert c.lru[m - 1..] == b.lru[n - 1..];
      }
    }
  }

  lemma NotCached(contents: map<Bytes, LRUHandle>, b: Shelf, e: LRUHandle)
    requires Cached(contents, b, null) && e !in b.lru && e !in b.used
    ensures e.key in contents ==> contents[e.key] != e
  {
  }

  lemma PutCached(contents: map<Bytes, LRUHandle>, b: Shelf, e: LRUHandle)
    requires Cached(contents, b, null) && e !in b.lru && e !in b.used
    ensures Cached(contents[e.key := e], b.(used := b.used + [e]), if e.key in contents then contents[e.key] else null)
  {
  }

  lemma OffShelf(b: Shelf, e: LRUHandle, known: set<LRUHandle>)
    requires ShelfOk(b, known) && (e in b.lru || e in b.used) && e !in b.deleted
    ensures var c := Off(b, e);
            && ShelfOk(c, known) && SameBut(b, c, e, known) && e !in c.lru && e !in c.used && e in known
            && AfterErase(b, e) == if e in b.lru then AfterLast(c, e) else c
  {
    WithoutHas(b.lru, e);
    WithoutHas(b.used, e);
    hide Without;
  }

  lemma EraseCached(contents: map<Bytes, LRUHandle>, b: Shelf, e: LRUHandle)
    requires Distinct(b.lru) && Distinct(b.used) && Cached(contents, b, e) && (e in b.lru ==> e !in b.used)
    ensures Cached(contents, AfterErase(b, e), null)
  {
    WithoutHas(b.lru, e);
    WithoutHas(b.used, e);
    hide Without, Distinct;
  }

  /** A shelf without an entry. */
  function Off(b: Shelf, e: LRUHandle): Shelf {
    b.(lru := Without(b.lru, e), used := Without(b.used, e))
  }

  /** The map of the table holds the entries of the two lists, but for one. */
  ghost predicate Cached(contents: map<Bytes, LRUHandle>, b: Shelf, but: LRUHandle?) {
    && (forall k :: k in contents ==> contents[k].key == k && contents[k] != but && (contents[k] in b.lru || contents[k] in b.used))
    && (forall h :: h in b.lru && h != but ==> h.key in contents && contents[h.key] == h)
    && (forall h :: h in b.used && h != but ==> h.key in contents && contents[h.key] == h)
  }

  lemma LastCached(contents: map<Bytes, LRUHandle>, b: Shelf, e: LRUHandle)
    requires Distinct(b.used) && Cached(contents, b, null)
    ensures Cached(contents, AfterLast(b, e), null)
  {
    WithoutHas(b.used, e);
    hide Without, Distinct;
  }

  function FindIn(s: seq<LRUHandle>, key: Bytes): (h: LRUHandle?)
    ensures h != null ==> h in s && h.key == key
    ensures h == null ==> forall x :: x in s ==> x.key != key
  {
    if s == [] then null else if s[0].key == key then s[0] else FindIn(s[1..], key)
  }

  /** The entry of a key in the cache. */
  function Find(b: Shelf, key: Bytes): LRUHandle? {
    var h := FindIn(b.lru, key);
    if h != null then h else FindIn(b.used, key)
  }

  lemma FoundOnShelf(b: Shelf, key: Bytes)
    ensures var h := Find(b, key); h != null ==> h.key == key && (h in b.lru || h in b.used)
  {
  }

  lemma FindIsTable(contents: map<Bytes, LRUHandle>, b: Shelf, key: Bytes)
    requires Cached(contents, b, null)
    ensures Find(b, key) == if key in contents then contents[key] else null
  {
    hide FindIn;
  }

  lemma RemovedCached(contents: map<Bytes, LRUHandle>, b: Shelf, key: Bytes)
    requires Cached(contents, b, null)
    ensures Cached(contents - {key}, b, if key in contents then contents[key] else null)
  {
  }
}

/** Runs of the cache: what clients see of it. */
module CacheRuns {
  import opened Keys
  import opened Coding
  import opened Logs
  import opened HandleTables
  import opened LruCaches

  datatype Command =
    | Insert(key: Bytes, value: string, charge: nat)
    | Lookup(key: Bytes)
    | Release(handle: nat)       // the handle that the command of that number returned
    | Erase(key: Bytes)
    | Prune

  /** The plain map: what was last inserted under each key and not erased since. */
  function Plain(cs: seq<Command>): map<Bytes, string> {
    if cs == [] then map[] else PlainStep(Plain(cs[..|cs| - 1]), cs[|cs| - 1])
  }

  function PlainStep(m: map<Bytes, string>, c: Command): map<Bytes, string> {
    match c
    case Insert(key, value, _) => m[key := value]
    case Erase(key) => m - {key}
    case _ => m
  }

  /** Every entry of the cache is that of the plain map. */
  ghost predicate Coherent(b: Shelf, m: map<Bytes, string>) {
    && (forall h :: h in b.lru ==> h.key in m && m[h.key] == h.value)
    && (forall h :: h in b.used ==> h.key in m && m[h.key] == h.value)
  }

  /** Erasing the entry of a key leaves no entry of that key. */
  lemma ErasedKey(contents: map<Bytes, LRUHandle>, b: Shelf, key: Bytes, known: set<LRUHandle>)
    requires Cached(contents, b, null) && ShelfOk(b, known)
    ensures var c := AfterErase(b, Find(b, key));
            && (forall h :: h in c.lru ==> h in b.lru && h.key != key)
            && (forall h :: h in c.used ==> h in b.used && h.key != key)
  {
    var e := Find(b, key);
    FindIsTable(contents, b, key);
    WithoutHas(b.lru, e);
    WithoutHas(b.used, e);
    hide Without, Find, FindIn;
    var c := AfterErase(b, e);
    forall h | h in c.lru || h in c.used
      ensures h.key != key
    {
      assert h in b.lru || h in b.used;
    }
  }

  // ------------------------------------------------------------------ what each command keeps

  /** Without room, nothing is kept at all. */
  ghost predicate Kept(b: Shelf, m: map<Bytes, string>, capacity: nat) {
    Coherent(b, m) && (capacity == 0 ==> b.lru == [] && b.used == [])
  }

  lemma RefKeeps(b: Shelf, e: LRUHandle, m: map<Bytes, string>, capacity: nat)
    requires Kept(b, m, capacity)
    ensures Kept(AfterRef(b, e), m, capacity)
  {
    hide Without;
  }

  lemma LastKeeps(b: Shelf, e: LRUHandle, m: map<Bytes, string>, capacity: nat)
    requires Kept(b, m, capacity)
    ensures Kept(AfterLast(b, e), m, capacity)
  {
    hide Without;
  }

  lemma EraseKeeps(contents: map<Bytes, LRUHandle>, b: Shelf, key: Bytes, known: set<LRUHandle>, m: map<Bytes, string>, capacity: nat)
    requires Cached(contents, b, null) && ShelfOk(b, known) && Kept(b, m, capacity)
    ensures Kept(AfterErase(b, Find(b, key)), m - {key}, capacity)
  {
    hide Cached, Find, AfterErase;
    ErasedKey(contents, b, key, known);
    Smaller(b, Find(b, key));
  }

  lemma Smaller(b: Shelf, e: LRUHandle?)
    ensures |AfterErase(b, e).lru| <= |b.lru| && |AfterErase(b, e).used| <= |b.used|
  {
    WithoutSize(b.lru, e);
    WithoutSize(b.used, e);
  }

  lemma {:induction false} WithoutSize(s: seq<LRUHandle>, e: LRUHandle?)
    ensures |Without(s, e)| <= |s|
  {
    if s != [] && s[0] != e {
      WithoutSize(s[1..], e);
    }
  }

  lemma InsertKeeps(contents: map<Bytes, LRUHandle>, b: Shelf, e: LRUHandle, known: set<LRUHandle>, m: map<Bytes, string>, capacity: nat)
    requires Cached(contents, b, null) && ShelfOk(b, known) && Kept(b, m, capacity) && capacity > 0 && e !in known
    ensures Kept(AfterInsert(b, e), m[e.key := e.value], capacity)
  {
    hide Cached, ShelfOk, Find, AfterErase, AfterInsert;
    ErasedKey(contents, b, e.key, known);
    InsertedIs(b, e, known);
  }

  lemma InsertedIs(b: Shelf, e: LRUHandle, known: set<LRUHandle>)
    requires ShelfOk(b, known) && e !in known
    ensures var c := AfterErase(b, Find(b, e.key));
            AfterInsert(b, e).lru == c.lru && AfterInsert(b, e).used == c.used + [e]
  {
    hide Find, Without;
    FoundOnShelf(b, e.key);
    WithoutMore(b.used, Find(b, e.key), e);
  }

  lemma {:induction false} WithoutMore(s: seq<LRUHandle>, stale: LRUHandle?, e: LRUHandle)
    requires stale != e
    ensures Without(s + [e], stale) == Without(s, stale) + [e]
  {
    if s != [] && s[0] != stale {
      WithoutMore(s[1..], stale, e);
      assert (s + [e])[1..] == s[1..] + [e];
    } else if s != [] {
      assert (s + [e])[1..] == s[1..] + [e];
    }
  }

  lemma EvictKeeps(b: Shelf, m: map<Bytes, string>, capacity: nat)
    requires Kept(b, m, capacity)
    ensures Kept(AfterEvict(b, capacity), m, capacity)
  {
    hide AfterEvict;
    var n := EvictedOldest(b, capacity);
  }

  // ------------------------------------------------------------------ the references of clients

  /** The handles that clients hold, each as often as it is held. */
  ghost function HeldBy(handles: seq<LRUHandle?>): multiset<LRUHandle> {
    if handles == [] then multiset{} else
    var h := handles[|handles| - 1];
    HeldBy(handles[..|handles| - 1]) + if h == null then multiset{} else multiset{h}
  }

  lemma HeldMore(handles: seq<LRUHandle?>, h: LRUHandle?)
    ensures HeldBy(handles + [h]) == HeldBy(handles) + if h == null then multiset{} else multiset{h}
  {
    assert (handles + [h])[..|handles|] == handles;
  }

  lemma {:induction false} HeldLess(handles: seq<LRUHandle?>, i: nat, h: LRUHandle)
    requires i < |handles| && handles[i] == h
    ensures HeldBy(handles)[h] > 0 && HeldBy(handles[i := null]) == HeldBy(handles) - multiset{h}
    decreases |handles|
  {
    hide HeldBy;
    var n := |handles| - 1;
    var front, last := handles[..n], handles[n];
    HeldMore(front, last);
    assert front + [last] == handles;
    if i < n {
      HeldLess(front, i, h);
      assert front[i := null] + [last] == handles[i := null];
      HeldMore(front[i := null], last);
      TakeOne(HeldBy(front), if last == null then multiset{} else multiset{last}, h);
    } else {
      assert front + [null] == handles[i := null];
      HeldMore(front, null);
    }
  }

  lemma TakeOne(a: multiset<LRUHandle>, b: multiset<LRUHandle>, h: LRUHandle)
    requires a[h] > 0
    ensures a - multiset{h} + b == a + b - multiset{h}
  {
  }

  // ------------------------------------------------------------------ what a command does

  /** The cache, and the handles that the commands so far returned and that are still held. */
  datatype Moment = Moment(shelf: Shelf, handles: seq<LRUHandle?>)

  /** What a command makes of the cache and the handles, and what it answers: an insertion
      takes the place of the entry of its key, and the oldest unused entries leave until the
      rest fits; a lookup finds the entry of its key, if it is there. */
  ghost predicate Follows(capacity: nat, s: Moment, c: Command, t: Moment, answer: Option<string>) {
    var n := |s.handles|;
    match c
    case Insert(key, value, charge) =>
      && |t.handles| == n + 1 && t.handles[..n] == s.handles && t.handles[n] != null && t.handles[n] !in s.handles
      && NewEntry(s.shelf, t.handles[n], key, value, charge)
      && t.shelf == AfterEvict(if capacity > 0 then AfterInsert(s.shelf, t.handles[n]) else s.shelf, capacity)
    case Lookup(key) =>
      var e := Find(s.shelf, key);
      && t == Moment(if e == null then s.shelf else AfterRef(s.shelf, e), s.handles + [e])
      && answer == if e == null then None else Some(e.value)
    case Release(i) =>
      if i < n && s.handles[i] != null then
        && t.handles == (s.handles + [null])[i := null]
        && t.shelf == if s.handles[i] in t.handles then s.shelf else AfterLast(s.shelf, s.handles[i])
      else t == Moment(s.shelf, s.handles + [null])
    case Erase(key) => t == Moment(AfterErase(s.shelf, Find(s.shelf, key)), s.handles + [null])
    case Prune => t == Moment(Shelf([], s.shelf.used, s.shelf.deleted + s.shelf.lru), s.handles + [null])
  }

  predicate NewEntry(b: Shelf, e: LRUHandle, key: Bytes, value: string, charge: nat) {
    e.key == key && e.value == value && e.charge == charge && e !in b.lru && e !in b.used && e !in b.deleted
  }

  // ------------------------------------------------------------------ runs

  /** The cache is sound, the clients hold these handles, and its entries are those of the map. */
  ghost predicate Sound(cache: LRUCache, hashOf: Bytes -> Word, handles: seq<LRUHandle?>, m: map<Bytes, string>)
    reads cache, cache.lru, cache.inUse, cache.known, cache.table, cache.table.list
  {
    cache.Valid() && cache.held == HeldBy(handles) && Kept(cache.shelf, m, cache.capacity) && hashOf == cache.table.hashOf
  }

  lemma SoundParts(cache: LRUCache, hashOf: Bytes -> Word, handles: seq<LRUHandle?>, m: map<Bytes, string>)
    requires Sound(cache, hashOf, handles, m)
    ensures cache.Valid() && cache.held == HeldBy(handles) && Kept(cache.shelf, m, cache.capacity) && hashOf == cache.table.hashOf
    ensures Cached(cache.table.contents, cache.shelf, null) && ShelfOk(cache.shelf, cache.known)
  {
  }

  /** Every entry in the cache, deleted or held is a known one. */
  lemma AllKnown(cache: LRUCache, hashOf: Bytes -> Word, handles: seq<LRUHandle?>, m: map<Bytes, string>)
    requires Sound(cache, hashOf, handles, m)
    ensures forall h: LRUHandle :: h in handles ==> h in cache.known
    ensures forall h :: h in cache.shelf.lru || h in cache.shelf.used || h in cache.shelf.deleted ==> h in cache.known
  {
    hide ListOk, HandleTable.Ok, Cached, Kept, HeldBy;
    forall h: LRUHandle | h in handles
      ensures h in cache.known
    {
      HeldIs(handles, h);
      assert h in cache.held;
    }
  }

  method DoInsert(cache: LRUCache, hashOf: Bytes -> Word, c: Command, handles: seq<LRUHandle?>, ghost m: map<Bytes, string>)
    returns (handles': seq<LRUHandle?>)
    requires Sound(cache, hashOf, handles, m) && c.Insert?
    modifies cache`shelf, cache`usage, cache`held, cache`known, cache.table, cache.table.list, cache.known, cache.lru, cache.inUse
    ensures Sound(cache, hashOf, handles', PlainStep(m, c)) && |handles'| == |handles| + 1
    ensures old(cache.known) <= cache.known && fresh(cache.known - old(cache.known))
    ensures cache.table.list == old(cache.table.list) || fresh(cache.table.list)
    ensures Follows(cache.capacity, Moment(old(cache.shelf), handles), c, Moment(cache.shelf, handles'), None)
  {
    hide LRUCache.Valid, Kept, HeldBy, AfterEvict, AfterInsert, Cached, ShelfOk;
    SoundParts(cache, hashOf, handles, m);
    AllKnown(cache, hashOf, handles, m);
    ghost var b, contents, known := cache.shelf, cache.table.contents, cache.known;
    var e := cache.Insert(c.key, hashOf(c.key), c.value, c.charge);
    handles' := handles + [e];
    HeldMore(handles, e);
    InsertedKept(contents, b, e, known, m, cache.capacity);
  }

  lemma InsertedKept(contents: map<Bytes, LRUHandle>, b: Shelf, e: LRUHandle, known: set<LRUHandle>, m: map<Bytes, string>, capacity: nat)
    requires Cached(contents, b, null) && ShelfOk(b, known) && Kept(b, m, capacity) && e !in known
    ensures Kept(AfterEvict(if capacity > 0 then AfterInsert(b, e) else b, capacity), m[e.key := e.value], capacity)
  {
    hide Cached, ShelfOk, AfterInsert, AfterEvict;
    if capacity > 0 {
      InsertKeeps(contents, b, e, known, m, capacity);
      EvictKeeps(AfterInsert(b, e), m[e.key := e.value], capacity);
    } else {
      EvictKeeps(b, m[e.key := e.value], capacity);
    }
  }

  method DoLookup(cache: LRUCache, hashOf: Bytes -> Word, c: Command, handles: seq<LRUHandle?>, ghost m: map<Bytes, string>)
    returns (handles': seq<LRUHandle?>, answer: Option<string>)
    requires Sound(cache, hashOf, handles, m) && c.Lookup?
    modifies cache`shelf, cache`held, cache.known, cache.lru, cache.inUse
    ensures Sound(cache, hashOf, handles', m) && |handles'| == |handles| + 1
    ensures answer.Some? ==> c.key in m && m[c.key] == answer.value
    ensures Follows(cache.capacity, Moment(old(cache.shelf), handles), c, Moment(cache.shelf, handles'), answer)
  {
    hide LRUCache.Valid, Kept, HeldBy, AfterRef, Cached, ShelfOk, Find;
    SoundParts(cache, hashOf, handles, m);
    ghost var b := cache.shelf;
    var e := cache.Lookup(c.key, hashOf(c.key));
    handles' := handles + [e];
    HeldMore(handles, e);
    FoundIsPlain(b, c.key, m, cache.capacity);
    answer := None;
    if e != null {
      answer := Some(e.value);
      RefKeeps(b, e, m, cache.capacity);
    }
  }

  lemma FoundIsPlain(b: Shelf, key: Bytes, m: map<Bytes, string>, capacity: nat)
    requires Kept(b, m, capacity)
    ensures var e := Find(b, key); e != null ==> key in m && m[key] == e.value
  {
    FoundOnShelf(b, key);
    hide Find;
  }

  method DoRelease(cache: LRUCache, hashOf: Bytes -> Word, i: nat, handles: seq<LRUHandle?>, ghost m: map<Bytes, string>)
    returns (handles': seq<LRUHandle?>)
    requires Sound(cache, hashOf, handles, m)
    modifies cache`shelf, cache`held, cache.known, cache.lru, cache.inUse
    ensures Sound(cache, hashOf, handles', m) && |handles'| == |handles| + 1
    ensures Follows(cache.capacity, Moment(old(cache.shelf), handles), Release(i), Moment(cache.shelf, handles'), None)
  {
    hide LRUCache.Valid, Kept, HeldBy, AfterLast, Cached, ShelfOk;
    SoundParts(cache, hashOf, handles, m);
    HeldMore(handles, null);
    handles' := handles + [null];
    if i < |handles| && handles[i] != null {
      ghost var b := cache.shelf;
      HeldLess(handles', i, handles[i]);
      cache.Release(handles[i]);
      LastKeeps(b, handles[i], m, cache.capacity);
      handles' := handles'[i := null];
      HeldIs(handles', handles[i]);
    }
  }

  method DoErase(cache: LRUCache, hashOf: Bytes -> Word, key: Bytes, handles: seq<LRUHandle?>, ghost m: map<Bytes, string>)
    returns (handles': seq<LRUHandle?>)
    requires Sound(cache, hashOf, handles, m)
    modifies cache`shelf, cache`usage, cache.table, cache.table.list, cache.known, cache.lru, cache.inUse
    ensures Sound(cache, hashOf, handles', m - {key}) && |handles'| == |handles| + 1
    ensures Follows(cache.capacity, Moment(old(cache.shelf), handles), Erase(key), Moment(cache.shelf, handles'), None)
    ensures cache.table.list == old(cache.table.list)
  {
    hide LRUCache.Valid, Kept, HeldBy, AfterErase, Cached, ShelfOk, Find;
    SoundParts(cache, hashOf, handles, m);
    HeldMore(handles, null);
    handles' := handles + [null];
    EraseKeeps(cache.table.contents, cache.shelf, key, cache.known, m, cache.capacity);
    cache.Erase(key, hashOf(key));
  }

  method DoPrune(cache: LRUCache, hashOf: Bytes -> Word, handles: seq<LRUHandle?>, ghost m: map<Bytes, string>)
    returns (handles': seq<LRUHandle?>)
    requires Sound(cache, hashOf, handles, m)
    modifies cache`shelf, cache`usage, cache.table, cache.table.list, cache.known, cache.lru, cache.inUse
    ensures Sound(cache, hashOf, handles', m) && |handles'| == |handles| + 1
    ensures Follows(cache.capacity, Moment(old(cache.shelf), handles), Prune, Moment(cache.shelf, handles'), None)
    ensures cache.table.list == old(cache.table.list)
  {
    hide LRUCache.Valid, HeldBy, Cached, ShelfOk;
    SoundParts(cache, hashOf, handles, m);
    HeldMore(handles, null);
    handles' := handles + [null];
    cache.Prune();
  }

  /** One command; returns the handles that clients hold after it, and what it answers. */
  method Step(cache: LRUCache, hashOf: Bytes -> Word, c: Command, handles: seq<LRUHandle?>, ghost m: map<Bytes, string>)
    returns (handles': seq<LRUHandle?>, answer: Option<string>)
    requires Sound(cache, hashOf, handles, m)
    modifies cache`shelf, cache`usage, cache`held, cache`known, cache.table, cache.table.list, cache.known, cache.lru, cache.inUse
    ensures Sound(cache, hashOf, handles', PlainStep(m, c)) && |handles'| == |handles| + 1
    ensures old(cache.known) <= cache.known && fresh(cache.known - old(cache.known))
    ensures cache.table.list == old(cache.table.list) || fresh(cache.table.list)
    ensures c.Lookup? && answer.Some? ==> c.key in m && m[c.key] == answer.value
    ensures Follows(cache.capacity, Moment(old(cache.shelf), handles), c, Moment(cache.shelf, handles'), answer)
  {
    hide Sound, Follows;
    answer := None;
    match c {
      case Insert(_, _, _) => handles' := DoInsert(cache, hashOf, c, handles, m);
      case Lookup(_) => handles', answer := DoLookup(cache, hashOf, c, handles, m);
      case Release(i) => handles' := DoRelease(cache, hashOf, i, handles, m);
      case Erase(key) => handles' := DoErase(cache, hashOf, key, handles, m);
      case Prune => handles' := DoPrune(cache, hashOf, handles, m);
    }
  }

  /** Over every run, a lookup answers nothing or what was last inserted under its key and
      not erased since; and an entry has been passed to its deleter, once, exactly if
      neither the cache nor a client refers to it.  What is in the cache after each
      command, and what it answers, is as the command says. */
  method Run(capacity: nat, hashOf: Bytes -> Word, cs: seq<Command>)
    returns (answers: seq<Option<string>>, cache: LRUCache, handles: seq<LRUHandle?>, ghost trace: seq<Moment>)
    ensures |answers| == |cs| && |trace| == |cs| + 1
    ensures trace[0] == Moment(Shelf([], [], []), []) && trace[|cs|] == Moment(cache.shelf, handles)
    ensures forall i :: 0 <= i < |cs| ==> Follows(capacity, trace[i], cs[i], trace[i + 1], answers[i])
    ensures forall i :: 0 <= i < |cs| && cs[i].Lookup? && answers[i].Some? ==> cs[i].key in Plain(cs[..i]) && Plain(cs[..i])[cs[i].key] == answers[i].value
    ensures Sound(cache, hashOf, handles, Plain(cs)) && Accounted(cache.shelf, cache.known, handles)
  {
    hide *;
    NothingPlain();
    cache := NewCache(capacity, hashOf);
    handles, answers := [], [];
    trace := [Moment(cache.shelf, [])];
    for i := 0 to |cs|
      invariant Sound(cache, hashOf, handles, Plain(cs[..i])) && |answers| == i
      invariant fresh(cache.known) && fresh(cache.table.list) && fresh(cache) && fresh(cache.table) && fresh(cache.lru) && fresh(cache.inUse)
      invariant forall j :: 0 <= j < i && cs[j].Lookup? && answers[j].Some? ==>
                  cs[j].key in Plain(cs[..j]) && Plain(cs[..j])[cs[j].key] == answers[j].value
      invariant cache.capacity == capacity && |trace| == i + 1
      invariant trace[0] == Moment(Shelf([], [], []), []) && trace[i] == Moment(cache.shelf, handles)
      invariant forall j :: 0 <= j < i ==> Follows(capacity, trace[j], cs[j], trace[j + 1], answers[j])
    {
      var answer;
      PlainMore(cs, i);
      handles, answer := Step(cache, hashOf, cs[i], handles, Plain(cs[..i]));
      answers, trace := answers + [answer], trace + [Moment(cache.shelf, handles)];
    }
    assert cs[..|cs|] == cs;
    AllAccounted(cache, hashOf, handles, Plain(cs));
  }

  lemma NothingPlain()
    ensures Plain([]) == map[]
  {
  }

  lemma PlainMore(cs: seq<Command>, i: nat)
    requires i < |cs|
    ensures Plain(cs[..i + 1]) == PlainStep(Plain(cs[..i]), cs[i])
  {
    assert cs[..i + 1][..i] == cs[..i];
  }

  method NewCache(capacity: nat, hashOf: Bytes -> Word) returns (cache: LRUCache)
    ensures fresh(cache) && fresh(cache.table) && fresh(cache.lru) && fresh(cache.inUse) && fresh(cache.table.list) && cache.known == {}
    ensures cache.capacity == capacity && cache.shelf == Shelf([], [], []) && Sound(cache, hashOf, [], map[])
  {
    hide LRUCache.Valid;
    cache := new LRUCache(hashOf);
    cache.SetCapacity(capacity);
  }

  lemma {:induction false} HeldIs(handles: seq<LRUHandle?>, h: LRUHandle)
    ensures HeldBy(handles)[h] > 0 <==> h in handles
  {
    if handles != [] {
      var n := |handles| - 1;
      HeldIs(handles[..n], h);
      assert handles == handles[..n] + [handles[n]];
    }
  }

  lemma AllAccounted(cache: LRUCache, hashOf: Bytes -> Word, handles: seq<LRUHandle?>, m: map<Bytes, string>)
    requires Sound(cache, hashOf, handles, m)
    ensures Accounted(cache.shelf, cache.known, handles)
  {
    hide ListOk, HandleTable.Ok, Cached, Kept, HeldBy;
    forall h | h in cache.known
      ensures h in cache.shelf.deleted <==> h !in cache.shelf.lru && h !in cache.shelf.used && h !in handles
    {
      HeldIs(handles, h);
      assert CountOk(h, h.refs, h.inCache, cache.shelf, cache.held[h]);
    }
  }

  /** Each entry ever made is in the cache, or held, or deleted once. */
  ghost predicate Accounted(b: Shelf, known: set<LRUHandle>, handles: seq<LRUHandle?>) {
    && Distinct(b.deleted)
    && forall h :: h in known ==> (h in b.deleted <==> h !in b.lru && h !in b.used && h !in handles)
  }
}
