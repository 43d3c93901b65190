/** The intrusive doubly linked circular lists of list.c. All lists share one heap of nodes; a ghost map, the
    pool, says which sequence each list head stands for. */
module IntrusiveList {

  class ListHead {
    var next: ListHead?
    var prev: ListHead?
    /** The slot of the task struct that contains the node: what list_head_to_task_struct finds by masking
        the node's address. It means nothing for the head of a queue. */
    const slot: nat

    constructor (slot: nat)
      ensures this.slot == slot && next == null && prev == null
    {
      this.slot := slot;
      next, prev := null, null;
    }
  }

  /** Going round from h along `next` visits s in order, and `prev` goes the other way. */
  ghost predicate Ring(h: ListHead, s: seq<ListHead>)
    reads h, s
  {
    && h !in s
    && (forall i, j :: 0 <= i < j < |s| ==> s[i] != s[j])
    && h.next == (if s == [] then h else s[0])
    && h.prev == (if s == [] then h else s[|s| - 1])
    && (forall i {:trigger s[i].next} :: 0 <= i < |s| ==> s[i].next == if i == |s| - 1 then h else s[i + 1])
    && (forall i {:trigger s[i].prev} :: 0 <= i < |s| ==> s[i].prev == if i == 0 then h else s[i - 1])
  }

  type Pool = map<ListHead, seq<ListHead>>

  ghost function Members(pool: Pool): (m: set<ListHead>)
    ensures forall h, n :: h in pool && n in pool[h] ==> n in m
    ensures forall n :: n in m ==> exists h :: h in pool && n in pool[h]
  {
    set h, n | h in pool && n in pool[h] :: n
  }

  /** No node is in two lists, and no list head is a member of a list. */
  ghost predicate Separate(pool: Pool) {
    && (forall h, n :: h in pool && n in pool[h] ==> n !in pool)
    && (forall h, k, n :: h in pool && k in pool && n in pool[h] && n in pool[k] ==> h == k)
  }

  ghost predicate PoolShape(pool: Pool)
    reads pool.Keys, Members(pool)
  {
    Separate(pool) && forall h :: h in pool ==> Ring(h, pool[h])
  }

  /** The node is in no list and heads none. */
  ghost predicate Loose(pool: Pool, n: ListHead) {
    n !in pool && n !in Members(pool)
  }

  ghost function Without(s: seq<ListHead>, i: nat): seq<ListHead>
    requires i < |s|
  {
    s[..i] + s[i + 1..]
  }

  /** Making a list of a node that is in no list; a list that exists is emptied, its members are forgotten. */
  method InitListHead(list: ListHead, ghost pool: Pool)
    requires PoolShape(pool) && list !in Members(pool)
    modifies list
    ensures PoolShape(pool[list := []])
  {
    list.next := list;
    list.prev := list;
    forall k | k in pool && k != list ensures Ring(k, pool[k]) {
      assert old(Ring(k, pool[k]));
    }
  }

  ghost function Inserted(s: seq<ListHead>, i: nat, n: ListHead): seq<ListHead>
    requires i <= |s|
  {
    s[..i] + [n] + s[i..]
  }

  lemma InsertSeparate(pool: Pool, h: ListHead, i: nat, n: ListHead)
    requires Separate(pool) && h in pool && Loose(pool, n) && i <= |pool[h]|
    ensures Separate(pool[h := Inserted(pool[h], i, n)])
  {
    assert forall x :: x in Inserted(pool[h], i, n) ==> x == n || x in pool[h];
  }

  /** The nodes that an operation on the list h touches are in no other list. */
  lemma Disjoint(pool: Pool, h: ListHead, touched: set<ListHead>)
    requires Separate(pool) && h in pool
    requires forall n :: n in touched ==> n == h || n in pool[h] || Loose(pool, n)
    ensures forall k :: k in pool && k != h ==> k !in touched && forall j :: 0 <= j < |pool[k]| ==> pool[k][j] !in touched
  {
    forall k, j | k in pool && k != h && 0 <= j < |pool[k]| ensures pool[k][j] !in touched {
      assert pool[k][j] in pool[k] && pool[k][j] in Members(pool);
    }
  }

  lemma RingInserted(h: ListHead, s: seq<ListHead>, i: nat, n: ListHead)
    requires i <= |s| && h !in s && n !in s && n != h
    requires forall j, l :: 0 <= j < l < |s| ==> s[j] != s[l]
    requires h.next == if i == 0 then n else s[0]
    requires h.prev == if i == |s| then n else s[|s| - 1]
    requires n.next == (if i == |s| then h else s[i]) && n.prev == (if i == 0 then h else s[i - 1])
    requires forall l {:trigger s[l].next} :: 0 <= l < |s| ==>
               s[l].next == if l + 1 == i then n else if l == |s| - 1 then h else s[l + 1]
    requires forall l {:trigger s[l].prev} :: 0 <= l < |s| ==>
               s[l].prev == if l == i then n else if l == 0 then h else s[l - 1]
    ensures Ring(h, Inserted(s, i, n))
  {
    var t := Inserted(s, i, n);
    assert forall j :: 0 <= j < |t| ==> t[j] == if j < i then s[j] else if j == i then n else s[j - 1];
    forall j | 0 <= j < |t| ensures t[j].next == if j == |t| - 1 then h else t[j + 1] {
      if j < i {
        assert s[j].next == t[j].next;
      } else if j > i {
        assert s[j - 1].next == t[j].next;
      }
    }
    forall j | 0 <= j < |t| ensures t[j].prev == if j == 0 then h else t[j - 1] {
      if j < i {
        assert s[j].prev == t[j].prev;
      } else if j > i {
        assert s[j - 1].prev == t[j].prev;
      }
    }
  }

  /** __list_add between two consecutive entries: positions i - 1 and i of the list s of h. */
  method LinkBetween(entry: ListHead, prev: ListHead, next: ListHead, ghost h: ListHead, ghost s: seq<ListHead>,
                     ghost i: nat)
    requires Ring(h, s) && entry !in s && entry != h && i <= |s|
    requires prev == if i == 0 then h else s[i - 1]
    requires next == if i == |s| then h else s[i]
    modifies entry, prev, next
    ensures Ring(h, Inserted(s, i, entry))
  {
    assert forall l :: 0 <= l < |s| ==> s[l] != h && s[l] != entry;
    next.prev := entry;
    entry.next := next;
    entry.prev := prev;
    prev.next := entry;
    RingInserted(h, s, i, entry);
  }

  /** list_add: a new first entry. */
  method ListAdd(entry: ListHead, head: ListHead, ghost pool: Pool)
    requires PoolShape(pool) && head in pool && Loose(pool, entry)
    modifies entry, head, head.next
    ensures PoolShape(pool[head := [entry] + pool[head]])
  {
    ghost var s := pool[head];
    assert Ring(head, s);
    assert Inserted(s, 0, entry) == [entry] + s;
    InsertSeparate(pool, head, 0, entry);
    Disjoint(pool, head, {entry, head, head.next});
    LinkBetween(entry, head, head.next, head, s, 0);
  }

  /** list_add_tail: a new last entry. */
  method ListAddTail(entry: ListHead, head: ListHead, ghost pool: Pool)
    requires PoolShape(pool) && head in pool && Loose(pool, entry)
    modifies entry, head, head.prev
    ensures PoolShape(pool[head := pool[head] + [entry]])
  {
    ghost var s := pool[head];
    assert Ring(head, s);
    assert Inserted(s, |s|, entry) == s + [entry];
    InsertSeparate(pool, head, |s|, entry);
    Disjoint(pool, head, {entry, head, head.prev});
    LinkBetween(entry, head.prev, head, head, s, |s|);
  }

  lemma RemoveSeparate(pool: Pool, h: ListHead, i: nat)
    requires Separate(pool) && h in pool && i < |pool[h]|
    ensures Separate(pool[h := Without(pool[h], i)])
  {
    assert forall x :: x in Without(pool[h], i) ==> x in pool[h];
  }

  lemma RingWithout(h: ListHead, s: seq<ListHead>, i: nat)
    requires i < |s| && h !in s
    requires forall j, l :: 0 <= j < l < |s| ==> s[j] != s[l]
    requires h.next == (if i == 0 then (if |s| == 1 then h else s[1]) else s[0])
    requires h.prev == (if i == |s| - 1 then (if |s| == 1 then h else s[|s| - 2]) else s[|s| - 1])
    requires forall l {:trigger s[l].next} :: 0 <= l < |s| && l != i ==>
               s[l].next == var m := if l + 1 == i then l + 2 else l + 1; if m == |s| then h else s[m]
    requires forall l {:trigger s[l].prev} :: 0 <= l < |s| && l != i ==>
               s[l].prev == var m := if l == i + 1 then l - 1 else l; if m == 0 then h else s[m - 1]
    ensures Ring(h, Without(s, i))
  {
    var t := Without(s, i);
    assert forall j :: 0 <= j < |t| ==> t[j] == if j < i then s[j] else s[j + 1];
  }

  /** __list_del of the entry at position i of the list s of h, and the detaching of the entry. */
  method Unlink(entry: ListHead, ghost h: ListHead, ghost s: seq<ListHead>, ghost i: nat)
    requires Ring(h, s) && i < |s| && s[i] == entry
    modifies entry, entry.next, entry.prev
    ensures Ring(h, Without(s, i)) && entry.next == null && entry.prev == null
  {
    assert forall l :: 0 <= l < |s| ==> s[l] != h;
    var prev, next := entry.prev, entry.next;
    next.prev := prev;
    prev.next := next;
    entry.next := null;
    entry.prev := null;
    RingWithout(h, s, i);
  }

  /** list_del of the entry at any position i of a list: the entry is detached, the others keep their order. */
  method ListDel(entry: ListHead, ghost h: ListHead, ghost i: nat, ghost pool: Pool)
    requires PoolShape(pool) && h in pool && i < |pool[h]| && pool[h][i] == entry
    modifies entry, entry.next, entry.prev
    ensures PoolShape(pool[h := Without(pool[h], i)])
    ensures Loose(pool[h := Without(pool[h], i)], entry) && entry.next == null && entry.prev == null
  {
    ghost var s := pool[h];
    assert Ring(h, s);
    assert s[i] in s;
    RemoveSeparate(pool, h, i);
    Disjoint(pool, h, {entry, entry.next, entry.prev});
    Unlink(entry, h, s, i);
    assert forall x :: x in Without(s, i) ==> x != entry;
  }

  method ListEmpty(head: ListHead, ghost pool: Pool) returns (b: bool)
    requires PoolShape(pool) && head in pool
    ensures b <==> pool[head] == []
  {
    assert Ring(head, pool[head]);
    assert pool[head] != [] ==> pool[head][0] in pool[head];
    b := head.next == head;
  }

  method ListFirst(head: ListHead, ghost pool: Pool) returns (e: ListHead)
    requires PoolShape(pool) && head in pool && pool[head] != []
    ensures e == pool[head][0]
  {
    assert Ring(head, pool[head]);
    e := head.next;
  }
}
