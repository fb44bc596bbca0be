/**
  The command history of the shell (interface/shell/shell_history.c): a table of slots, and the list
  of those in use, most recent command first.
 */
module History {
  import opened Graphs

  const MAX := 100

  // ----- the most recently used commands -----

  /** A list without the first occurrence of `x`. */
  function Without<T(==)>(l: seq<T>, x: T): (r: seq<T>)
  {
    if l == [] then [] else if l[0] == x then l[1..] else [l[0]] + Without(l[1..], x)
  }

  /** The different commands used, the last used first. */
  function Recent(used: seq<string>): seq<string> {
    if used == [] then [] else [used[|used| - 1]] + Without(Recent(used[..|used| - 1]), used[|used| - 1])
  }

  function Take<T>(l: seq<T>, n: nat): (r: seq<T>)
    ensures |r| == if |l| <= n then |l| else n
  {
    if |l| <= n then l else l[..n]
  }

  /** The place of the last use of a command; -1 when it was not used. */
  function LastUse(used: seq<string>, s: string): int {
    if used == [] then -1
    else if used[|used| - 1] == s then |used| - 1
    else LastUse(used[..|used| - 1], s)
  }

  lemma {:induction false} WithoutIs<T>(l: seq<T>, x: T)
    requires Distinct(l)
    ensures Distinct(Without(l, x)) && forall y :: y in Without(l, x) <==> y in l && y != x
    ensures x !in l ==> Without(l, x) == l
    ensures |Without(l, x)| == if x in l then |l| - 1 else |l|
  {
    if l != [] {
      assert l == [l[0]] + l[1..];
      DistinctTail(l);
      if l[0] != x {
        WithoutIs(l[1..], x);
        DistinctCons(l[0], Without(l[1..], x));
      }
    }
  }

  lemma DistinctTail<T>(l: seq<T>)
    requires Distinct(l) && l != []
    ensures Distinct(l[1..]) && l[0] !in l[1..]
  {
    assert forall i :: 0 <= i < |l| - 1 ==> l[1..][i] == l[i + 1];
  }

  lemma DistinctCons<T>(x: T, l: seq<T>)
    requires Distinct(l) && x !in l
    ensures Distinct([x] + l)
  {
    forall i, j | 0 <= i < j < |l| + 1 ensures ([x] + l)[i] != ([x] + l)[j] {
      assert ([x] + l)[j] == l[j - 1];
    }
  }

  /** Each command of a list was used after those that follow it. */
  predicate LatestFirst(used: seq<string>, l: seq<string>) {
    l == [] || ((forall y :: y in l[1..] ==> LastUse(used, l[0]) > LastUse(used, y)) && LatestFirst(used, l[1..]))
  }

  lemma {:induction false} WithoutKeepsOrder(used: seq<string>, l: seq<string>, x: string)
    requires Distinct(l) && LatestFirst(used, l)
    ensures LatestFirst(used, Without(l, x))
  {
    if l != [] && l[0] != x {
      DistinctTail(l);
      WithoutKeepsOrder(used, l[1..], x);
      WithoutIs(l[1..], x);
      assert ([l[0]] + Without(l[1..], x))[1..] == Without(l[1..], x);
    }
  }

  lemma {:induction false} LaterUse(used: seq<string>, s: string, l: seq<string>)
    requires LatestFirst(used, l) && s !in l
    ensures LatestFirst(used + [s], l)
  {
    assert (used + [s])[..|used|] == used;
    if l != [] {
      assert l[0] in l && forall y :: y in l[1..] ==> y in l;
      LaterUse(used, s, l[1..]);
    }
  }

  /** The commands used, each once, in the order of their last use. */
  lemma {:induction false} RecentIs(used: seq<string>)
    ensures Distinct(Recent(used)) && (forall s :: s in Recent(used) <==> s in used)
    ensures LatestFirst(used, Recent(used))
  {
    hide LatestFirst, Distinct;
    if used == [] {
      assert LatestFirst(used, []) && Distinct<string>([]) by { NothingUsed(); }
    } else {
      var front, s := used[..|used| - 1], used[|used| - 1];
      assert used == front + [s];
      RecentIs(front);
      var w := Without(Recent(front), s);
      WithoutIs(Recent(front), s);
      WithoutKeepsOrder(front, Recent(front), s);
      LaterUse(front, s, w);
      DistinctCons(s, w);
      UsedLast(front, s, w);
    }
  }

  lemma NothingUsed()
    ensures LatestFirst([], []) && Distinct<string>([])
  {
  }

  lemma UsedLast(front: seq<string>, s: string, w: seq<string>)
    requires s !in w && LatestFirst(front + [s], w)
    ensures LatestFirst(front + [s], [s] + w)
  {
    var used := front + [s];
    assert used[..|front|] == front && ([s] + w)[1..] == w;
    forall y | y in w ensures LastUse(used, s) > LastUse(used, y) {
      LastUseBound(front, y);
    }
  }

  lemma {:induction false} LastUseBound(used: seq<string>, s: string)
    ensures -1 <= LastUse(used, s) < |used|
  {
    if used != [] {
      LastUseBound(used[..|used| - 1], s);
    }
  }

  lemma {:induction false} TakeWithout<T>(l: seq<T>, x: T, n: nat)
    requires n > 0 && Distinct(l)
    ensures x in Take(l, n) ==> Take(Without(l, x), n - 1) == Without(Take(l, n), x)
    ensures x !in Take(l, n) ==> Take(Without(l, x), n - 1) == Take(l, n - 1)
  {
    if l != [] {
      assert Distinct(l[1..]) by { assert l == [l[0]] + l[1..]; }
      assert Take(l, n) == [l[0]] + Take(l[1..], n - 1);
      if l[0] == x {
        assert Take(l, n)[1..] == Take(l[1..], n - 1);
      } else if n > 1 {
        TakeWithout(l[1..], x, n - 1);
        assert Take(l, n)[1..] == Take(l[1..], n - 1);
        assert Take([l[0]] + Without(l[1..], x), n - 1) == [l[0]] + Take(Without(l[1..], x), n - 2);
        assert Take(l, n - 1) == [l[0]] + Take(l[1..], n - 2);
      } else {
        assert Take(l, 1) == [l[0]];
      }
    }
  }

  /** Using a command puts it first, and drops the oldest one when it was not among the first `n`. */
  lemma UsedFirst(used: seq<string>, s: string, n: nat)
    requires n > 0
    ensures var l := Take(Recent(used), n);
            Take(Recent(used + [s]), n) == [s] + if s in l then Without(l, s) else Take(l, n - 1)
  {
    assert (used + [s])[..|used|] == used;
    RecentIs(used);
    TakeWithout(Recent(used), s, n);
    var r := Recent(used);
    assert Take([s] + Without(r, s), n) == [s] + Take(Without(r, s), n - 1);
    assert Take(Take(r, n), n - 1) == Take(r, n - 1);
  }

  // ----- the history -----

  class HistoryItem {
    var id: int
    var str: string
    var ret: int

    constructor ()
      ensures id == -1 && str == [] && ret == 0
    {
      id, str, ret := -1, [], 0;
    }
  }

  datatype Event = Add | Del | MoveUp

  ghost function Names(list: seq<HistoryItem>): (r: seq<string>)
    reads list`str
    ensures |r| == |list| && forall i :: 0 <= i < |list| ==> r[i] == list[i].str
  {
    if list == [] then [] else Names(list[..|list| - 1]) + [list[|list| - 1].str]
  }

  // ----- lists that hold the same items -----

  lemma {:induction false} WithoutMultiset<T>(l: seq<T>, x: T)
    requires x in l
    ensures multiset(l) == multiset([x] + Without(l, x))
  {
    assert l == [l[0]] + l[1..];
    if l[0] != x {
      WithoutMultiset(l[1..], x);
      assert multiset([x] + Without(l, x)) == multiset([l[0]]) + multiset([x] + Without(l[1..], x));
    }
  }

  lemma CountFirst<T>(l: seq<T>, x: T)
    requires l != []
    ensures multiset(l)[x] == (if x == l[0] then 1 else 0) + multiset(l[1..])[x]
    ensures x in l[1..] <==> multiset(l[1..])[x] > 0
    ensures x in l[1..] ==> x in l
  {
    assert l == [l[0]] + l[1..];
  }

  lemma {:induction false} DistinctOnce<T>(l: seq<T>)
    ensures Distinct(l) <==> forall x :: x in l ==> multiset(l)[x] == 1
  {
    hide Distinct;
    if l == [] {
      NoneDistinct<T>();
    } else {
      DistinctOnce(l[1..]);
      if Distinct(l) {
        DistinctTail(l);
        forall x | x in l ensures multiset(l)[x] == 1 {
          CountFirst(l, x);
        }
      }
      if forall x :: x in l ==> multiset(l)[x] == 1 {
        CountFirst(l, l[0]);
        forall x | x in l[1..] ensures multiset(l[1..])[x] == 1 {
          CountFirst(l, x);
        }
        DistinctCons(l[0], l[1..]);
        assert l == [l[0]] + l[1..];
      }
    }
  }

  lemma NoneDistinct<T>()
    ensures Distinct<T>([])
  {
  }

  lemma SameItems<T>(l: seq<T>, l': seq<T>)
    requires multiset(l) == multiset(l') && Distinct(l)
    ensures Distinct(l') && |l| == |l'| && forall x :: x in l' <==> x in l
  {
    DistinctOnce(l);
    DistinctOnce(l');
    assert |multiset(l)| == |multiset(l')|;
    forall x ensures x in l' <==> x in l {
      assert x in l' <==> x in multiset(l');
      assert x in l <==> x in multiset(l);
    }
  }

  lemma {:induction false} WithoutLast<T>(l: seq<T>)
    requires Distinct(l) && l != []
    ensures Without(l, l[|l| - 1]) == l[..|l| - 1]
  {
    hide Distinct;
    if |l| > 1 {
      DistinctTail(l);
      WithoutLast(l[1..]);
      assert l[|l| - 1] == l[1..][|l| - 2] && l[1..][|l| - 2] in l[1..];
      assert l[..|l| - 1] == [l[0]] + l[1..][..|l| - 2];
    }
  }

  /** Removing an item removes its command. */
  lemma {:induction false} NamesWithout(list: seq<HistoryItem>, item: HistoryItem)
    requires item in list && Distinct(Names(list))
    ensures Names(Without(list, item)) == Without(Names(list), item.str)
  {
    var rest := list[1..];
    NamesCons(list);
    DistinctTail(Names(list));
    if list[0] != item {
      NameIn(rest, item);
      NamesWithout(rest, item);
      assert Without(list, item)[1..] == Without(rest, item);
      NamesCons(Without(list, item));
    }
  }

  lemma NameIn(list: seq<HistoryItem>, item: HistoryItem)
    requires item in list
    ensures item.str in Names(list)
  {
    var k :| 0 <= k < |list| && list[k] == item;
    assert Names(list)[k] == item.str;
  }

  lemma NamesCons(list: seq<HistoryItem>)
    requires list != []
    ensures Names(list) == [list[0].str] + Names(list[1..])
  {
    forall i | 0 <= i < |list| ensures Names(list)[i] == ([list[0].str] + Names(list[1..]))[i] {
    }
  }

  class ShellHistory {
    const tab: seq<HistoryItem>
    var count: nat
    var id: nat
    var list: seq<HistoryItem>
    ghost var used: seq<string>

    /** The slots in use have different ids. */
    ghost predicate Ids()
      reads this`count, this`id, tab`id
    {
      |tab| == MAX && Distinct(tab) && count <= MAX && IdsUpTo(count, id)
    }

    /** The first `c` slots have different ids, up to `n`. */
    ghost predicate IdsUpTo(c: nat, n: int)
      reads tab`id
      requires c <= |tab|
    {
      && (forall i :: 0 <= i < c ==> 0 < tab[i].id <= n)
      && (forall i, j :: 0 <= i < j < c ==> tab[i].id != tab[j].id)
    }

    /** These items are the slots in use, each once. */
    ghost predicate Holds(items: seq<HistoryItem>)
      reads this`count
    {
      count <= |tab| && multiset(items) == multiset(tab[..count])
    }

    /** The list holds the commands most recently used, the last one first, in the slots in use. */
    ghost predicate Valid()
      reads this, tab`id, list`str
    {
      Ids() && Holds(list) && Names(list) == Take(Recent(used), MAX)
    }

    lemma ListFacts(items: seq<HistoryItem>)
      requires |tab| == MAX && Distinct(tab) && count <= MAX && Holds(items)
      ensures |items| == count && Distinct(items) && forall x :: x in items <==> x in tab[..count]
    {
      assert Distinct(tab[..count]);
      SameItems(tab[..count], items);
    }

    constructor ()
      ensures Valid() && used == [] && list == [] && fresh(tab)
    {
      var slots: seq<HistoryItem> := [];
      var i := 0;
      while i < MAX
        invariant 0 <= i == |slots| <= MAX && Distinct(slots) && fresh(slots)
        invariant forall k :: 0 <= k < |slots| ==> allocated(slots[k])
      {
        var item := new HistoryItem();
        assert item !in slots;
        slots := slots + [item];
        i := i + 1;
      }
      tab, count, id, list, used := slots, 0, 0, [], [];
    }

    /** The item of a command; null when it is not in the list. */
    method Retrieve(str: string) returns (item: HistoryItem?)
      ensures item == null <==> str !in Names(list)
      ensures item != null ==> item in list && item.str == str
    {
      item := null;
      var i := 0;
      while i < |list| && item == null
        invariant 0 <= i <= |list|
        invariant if item == null then str !in Names(list)[..i] else item in list && item.str == str
      {
        assert Names(list)[..i + 1] == Names(list)[..i] + [list[i].str];
        if list[i].str == str {
          item := list[i];
        }
        i := i + 1;
      }
      assert Names(list)[..|list|] == Names(list);
      if item != null {
        NameIn(list, item);
      }
    }

    /** Take the next free slot. */
    method FreeSlot() returns (item: HistoryItem)
      requires |tab| == MAX && Distinct(tab) && count < MAX && IdsUpTo(count, id - 1) && Holds(list)
      modifies this`count
      ensures count == old(count) + 1 && item == tab[old(count)] && OtherIds(item) && Holds([item] + list)
    {
      hide IdsUpTo, OtherIds;
      item := tab[count];
      count := count + 1;
      assert tab[..count] == tab[..count - 1] + [item];
      SlotIds(item, count - 1);
    }

    /** Take the slot of the oldest command off the list. */
    method OldestSlot() returns (item: HistoryItem)
      requires |tab| == MAX && Distinct(tab) && count == MAX && IdsUpTo(count, id - 1) && Holds(list)
      modifies this`list
      ensures list == Take(old(list), MAX - 1) && OtherIds(item) && Holds([item] + list)
    {
      hide IdsUpTo, OtherIds;
      ListFacts(list);
      item := list[|list| - 1];
      WithoutMultiset(list, item);
      WithoutLast(list);
      list := Without(list, item);
      SlotIds(item, count);
    }

    lemma FirstApart(item: HistoryItem, items: seq<HistoryItem>)
      requires |tab| == MAX && Distinct(tab) && count <= MAX && Holds([item] + items)
      ensures 1 <= count && |items| == count - 1 && item !in items && item in tab[..count] && item in tab
    {
      hide Distinct;
      ListFacts([item] + items);
      DistinctTail([item] + items);
      assert ([item] + items)[0] == item && ([item] + items)[1..] == items;
    }

    /** The slot for a new command: a free one, or that of the oldest command, which leaves the list. */
    method NewSlot() returns (item: HistoryItem, events: seq<Event>)
      requires |tab| == MAX && Distinct(tab) && count <= MAX && IdsUpTo(count, id - 1) && Holds(list)
      modifies this`count, this`list
      ensures OtherIds(item) && Holds([item] + list) && count <= MAX && item in tab && item !in list
      ensures list == Take(old(list), MAX - 1) && events == if old(count) < MAX then [] else [Del]
    {
      hide IdsUpTo, OtherIds, Holds, Distinct;
      events := [];
      ListFacts(list);
      if count < MAX {
        item := FreeSlot();
      } else {
        item := OldestSlot();
        events := [Del];
      }
      FirstApart(item, list);
    }

    lemma SlotIds(item: HistoryItem, c: nat)
      requires |tab| == MAX && Distinct(tab) && count <= MAX && c <= MAX && IdsUpTo(c, id - 1)
      requires count == c || (count == c + 1 && item == tab[c])
      ensures OtherIds(item)
    {
    }

    /** The slots in use other than `item` have different ids, all below the next one. */
    ghost predicate OtherIds(item: HistoryItem)
      reads this`count, this`id, tab`id
    {
      && |tab| == MAX && Distinct(tab) && count <= MAX
      && (forall i :: 0 <= i < count && tab[i] != item ==> 0 < tab[i].id < id)
      && (forall i, j :: 0 <= i < j < count && tab[i] != item && tab[j] != item ==> tab[i].id != tab[j].id)
    }

    method SetItem(item: HistoryItem, str: string)
      requires OtherIds(item) && item in tab && item !in list && id > 0
      modifies item
      ensures Ids() && item.str == str && item.id == id && Names(list) == old(Names(list))
    {
      hide Names;
      ghost var names := Names(list);
      item.id := id;
      item.str := str;
      item.ret := 0;
      assert Names(list) == names;
    }

    /** Take a slot for a command that is not in the list. */
    method AddItem(str: string) returns (item: HistoryItem, events: seq<Event>)
      requires Ids() && Holds(list)
      modifies this`count, this`list, this`id, tab
      ensures Ids() && Holds([item] + list) && item.str == str && item.id == id == old(id) + 1
      ensures Names(list) == Take(old(Names(list)), MAX - 1)
      ensures events == if old(count) < MAX then [Add] else [Del, Add]
    {
      hide Take, Holds, Names, IdsUpTo, OtherIds;
      ghost var before, names := list, Names(list);
      id := id + 1;
      item, events := NewSlot();
      NamesTaken(before, names, MAX - 1);
      SetItem(item, str);
      events := events + [Add];
    }

    lemma NamesTaken(items: seq<HistoryItem>, names: seq<string>, n: nat)
      requires names == Names(items)
      ensures Names(Take(items, n)) == Take(names, n)
    {
      forall i | 0 <= i < |Take(items, n)| ensures Names(Take(items, n))[i] == Take(names, n)[i] {
      }
    }

    /** Take an item off the list. */
    method Remove(item: HistoryItem)
      requires Ids() && Holds(list) && item in list && Distinct(Names(list))
      modifies this`list
      ensures Holds([item] + list) && Names(list) == Without(old(Names(list)), item.str)
    {
      WithoutMultiset(list, item);
      NamesWithout(list, item);
      list := Without(list, item);
    }

    method PutFirst(item: HistoryItem, str: string)
      requires Ids() && Holds([item] + list) && item.str == str
      modifies this`list, this`used
      ensures Ids() && Holds(list) && list == [item] + old(list) && Names(list) == [str] + old(Names(list))
      ensures used == old(used) + [str]
    {
      hide Names;
      used := used + [str];
      NamesCons([item] + list);
      assert ([item] + list)[1..] == list;
      list := [item] + list;
    }

    /** Use a command: it comes first, in its own slot or in a new one. */
    method Update(str: string) returns (item: HistoryItem, events: seq<Event>)
      requires Valid()
      modifies this`count, this`list, this`id, this`used, tab
      ensures Valid() && used == old(used) + [str]
      ensures list != [] && list[0] == item && item.str == str
      ensures id == if str in old(Names(list)) then old(id) else old(id) + 1
      ensures events == if str in old(Names(list)) then [MoveUp] else if old(count) < MAX then [Add] else [Del, Add]
    {
      hide Recent, Take, Without, Holds, Ids, Names, Distinct;
      UsedFirst(used, str, MAX);
      NamesDistinct(used);
      var found := Retrieve(str);
      if found == null {
        item, events := AddItem(str);
      } else {
        item := found;
        Remove(item);
        events := [MoveUp];
      }
      PutFirst(item, str);
    }

    /** Use again the command of an item. */
    method First(item: HistoryItem)
      requires Valid() && item in list
      modifies this`list, this`used
      ensures Valid() && used == old(used) + [item.str] && list != [] && list[0] == item
    {
      hide Recent, Take, Without, Holds, Ids, Names, Distinct;
      UsedFirst(used, item.str, MAX);
      NamesDistinct(used);
      NameIn(list, item);
      Remove(item);
      PutFirst(item, item.str);
    }

    /** The item of that id; null when there is none. */
    method Get(id: int) returns (item: HistoryItem?)
      ensures item == null <==> forall x :: x in list ==> x.id != id
      ensures item != null ==> item in list && item.id == id
    {
      item := null;
      var i := 0;
      while i < |list| && item == null
        invariant 0 <= i <= |list|
        invariant if item == null then forall k :: 0 <= k < i ==> list[k].id != id else item in list && item.id == id
      {
        if list[i].id == id {
          item := list[i];
        }
        i := i + 1;
      }
    }
  }

  lemma NamesDistinct(used: seq<string>)
    ensures Distinct(Take(Recent(used), MAX))
  {
    RecentIs(used);
    var r := Recent(used);
    assert Distinct(r);
  }
}
