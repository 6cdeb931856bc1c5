/** LRUCache: a list of elements in order of recency and a map from key to element
    (internal/rag/cache.go). */
module LruCache {
  import opened Wrappers
  import opened LruSpec

  class Element<V> {
    const key: string
    var value: V

    constructor (key: string, value: V)
      ensures this.key == key && this.value == value
    {
      this.key, this.value := key, value;
    }
  }

  ghost predicate NoneTwice<V>(list: seq<Element<V>>) {
    forall i, j :: 0 <= i < j < |list| ==> list[i] != list[j]
  }

  ghost predicate Indexed<V>(list: seq<Element<V>>, items: map<string, Element<V>>) {
    forall i :: 0 <= i < |list| ==> list[i].key in items && items[list[i].key] == list[i]
  }

  ghost predicate Covers<V>(list: seq<Element<V>>, items: map<string, Element<V>>) {
    forall k :: k in items ==> items[k] in list && items[k].key == k
  }

  /** List and map are in bijection. */
  ghost predicate Agree<V>(list: seq<Element<V>>, items: map<string, Element<V>>) {
    NoneTwice(list) && Indexed(list, items) && Covers(list, items)
  }

  /** Where the element now at `i` was before the one at `p` moved to the front. */
  function Origin(p: nat, i: nat): nat {
    if i == 0 then p else if i <= p then i - 1 else i
  }

  function Moved<V>(list: seq<Element<V>>, p: nat): (moved: seq<Element<V>>)
    requires p < |list|
    ensures |moved| == |list| && forall i :: 0 <= i < |list| ==> Origin(p, i) < |list| && moved[i] == list[Origin(p, i)]
  {
    [list[p]] + list[..p] + list[p + 1..]
  }

  lemma MovedAgree<V>(list: seq<Element<V>>, items: map<string, Element<V>>, p: nat)
    requires Agree(list, items) && p < |list|
    ensures Agree(Moved(list, p), items)
  {
    var moved := Moved(list, p);
    hide Moved;
    forall i, j | 0 <= i < j < |moved| ensures moved[i] != moved[j] {
      var a, b := Origin(p, i), Origin(p, j);
      assert a < b ==> list[a] != list[b];
      assert b < a ==> list[b] != list[a];
    }
    MovedCovers(list, items, p);
    hide Covers;
  }

  lemma MovedCovers<V>(list: seq<Element<V>>, items: map<string, Element<V>>, p: nat)
    requires Covers(list, items) && p < |list|
    ensures Covers(Moved(list, p), items)
  {
    var moved := Moved(list, p);
    hide Moved;
    forall k | k in items ensures items[k] in moved {
      var i :| 0 <= i < |list| && list[i] == items[k];
      var at := if i < p then i + 1 else if i == p then 0 else i;
      assert Origin(p, at) == i;
      assert moved[at] == items[k];
    }
  }

  lemma AddedAgree<V>(list: seq<Element<V>>, items: map<string, Element<V>>, e: Element<V>)
    requires Agree(list, items) && e !in list && e.key !in items
    ensures Agree([e] + list, items[e.key := e])
  {
    var added, more := [e] + list, items[e.key := e];
    forall k | k in more ensures more[k] in added {
      if k != e.key {
        var i :| 0 <= i < |list| && list[i] == items[k];
        assert added[i + 1] == items[k];
      }
    }
  }

  lemma TrimmedAgree<V>(list: seq<Element<V>>, items: map<string, Element<V>>)
    requires Agree(list, items) && list != []
    ensures Agree(list[..|list| - 1], items - {list[|list| - 1].key})
  {
    var last, init := list[|list| - 1], list[..|list| - 1];
    forall k | k in items - {last.key} ensures items[k] in init {
      var i :| 0 <= i < |list| && list[i] == items[k];
      assert init[i] == items[k];
    }
  }

  class LRUCache<V> {
    const capacity: nat
    var list: seq<Element<V>>
    var items: map<string, Element<V>>

    ghost predicate Valid()
      reads this
    {
      capacity > 0 && |list| <= capacity && Agree(list, items)
    }

    ghost function Contents(): (c: Recency<V>)
      reads this, list
      ensures |c| == |list|
    {
      seq(|list|, i requires 0 <= i < |list| reads this, list => Entry(list[i].key, list[i].value))
    }

    constructor (capacity: int)
      ensures Valid() && Contents() == []
      ensures this.capacity == if capacity <= 0 then 128 else capacity
    {
      this.capacity := if capacity <= 0 then 128 else capacity;
      list, items := [], map[];
    }

    /** Where the element of a key stands. */
    lemma Position(k: string, p: nat)
      requires Valid() && k in items && p < |list| && list[p] == items[k]
      ensures IndexOf(Keys(Contents()), k) == p
    {
      var keys := Keys(Contents());
      assert forall i :: 0 <= i < |list| ==> keys[i] == list[i].key;
      assert keys[p] == k;
      forall i | 0 <= i < p ensures keys[i] != k {
        assert items[list[i].key] == list[i];
      }
      assert k !in keys[..p];
      hide Contents, IndexOf, Keys;
      FirstIndex(keys, k, p);
    }

    lemma Absent(k: string)
      requires Valid() && k !in items
      ensures IndexOf(Keys(Contents()), k) == |list|
    {
      var keys := Keys(Contents());
      assert forall i :: 0 <= i < |list| ==> keys[i] == list[i].key;
      assert k !in keys;
    }

    lemma MovedContents(before: seq<Element<V>>, c: Recency<V>, p: nat)
      requires |c| == |before| && p < |before|
      requires forall i :: 0 <= i < |before| ==> c[i] == Entry(before[i].key, before[i].value)
      requires list == Moved(before, p)
      ensures Contents() == ToFront(c, p)
    {
      var moved, now := ToFront(c, p), Contents();
      assert forall i :: 0 <= i < |list| ==> now[i] == Entry(list[i].key, list[i].value);
      hide Contents, Moved;
      assert |now| == |moved|;
      forall i | 0 <= i < |now| ensures now[i] == moved[i] {
        assert moved[i] == c[Origin(p, i)];
      }
    }

    /** The element's place in the list. */
    method PositionOf(e: Element<V>, ghost p: nat) returns (i: nat)
      requires Valid() && p < |list| && list[p] == e
      ensures i == p
    {
      i := 0;
      while list[i] != e
        invariant i <= p
        decreases p - i
      {
        i := i + 1;
      }
    }

    /** The list's own MoveToFront. */
    method MoveToFront(e: Element<V>, ghost p: nat)
      requires Valid() && p < |list| && list[p] == e
      modifies this`list
      ensures Valid()
      ensures forall e :: e in list ==> e in old(list)
      ensures Contents() == ToFront(old(Contents()), p)
    {
      hide Agree, ToFront;
      var i := PositionOf(e, p);
      MovedAgree(list, items, p);
      ghost var before, c := list, Contents();
      assert [e] + list[..i] + list[i + 1..] == Moved(before, p);
      MovedMembers(list, p);
      hide Moved;
      list := [e] + list[..i] + list[i + 1..];
      MovedContents(before, c, p);
    }

    lemma MovedMembers(before: seq<Element<V>>, p: nat)
      requires p < |before|
      ensures forall e :: e in Moved(before, p) ==> e in before
    {
    }

    method Get(key: string) returns (r: Option<V>)
      requires Valid()
      modifies this`list
      ensures Valid()
      ensures r == Lookup(old(Contents()), key)
      ensures Contents() == AfterGet(old(Contents()), key)
    {
      if key !in items {
        Absent(key);
        hide Agree, Keys, IndexOf;
        return None;
      }
      var e := items[key];
      ghost var p :| 0 <= p < |list| && list[p] == e;
      Position(key, p);
      r := Some(e.value);
      hide Agree, Keys, IndexOf, ToFront;
      MoveToFront(e, p);
    }

    method Put(key: string, value: V)
      requires Valid()
      modifies this, list
      ensures Valid()
      ensures forall e :: e in list ==> e in old(list) || fresh(e)
      ensures Contents() == AfterPut(capacity, old(Contents()), key, value)
    {
      if key in items {
        Replace(key, value);
      } else {
        Absent(key);
        hide Agree, Keys, IndexOf, ToFront;
        Insert(key, value);
      }
    }

    /** Put of a key that is not there: a new element in front, and the last one goes
        when they are too many. */
    method Insert(key: string, value: V)
      requires Valid() && key !in items
      modifies this`list, this`items
      ensures Valid()
      ensures forall e :: e in list ==> e in old(list) || fresh(e)
      ensures
        var longer := [Entry(key, value)] + old(Contents());
        Contents() == if |longer| > capacity then longer[..|longer| - 1] else longer
    {
      hide Agree;
      PushFront(key, value);
      if |list| > capacity {
        RemoveBack();
      }
    }

    method PushFront(key: string, value: V)
      requires Valid() && key !in items
      modifies this`list, this`items
      ensures Agree(list, items) && |list| == |old(list)| + 1
      ensures forall e :: e in list ==> e in old(list) || fresh(e)
      ensures Contents() == [Entry(key, value)] + old(Contents())
    {
      var e := new Element(key, value);
      AddedAgree(list, items, e);
      hide Agree;
      list := [e] + list;
      items := items[key := e];
    }

    /** The least recently used element leaves the list and the map. */
    method RemoveBack()
      requires Agree(list, items) && |list| == capacity + 1 && capacity > 0
      modifies this`list, this`items
      ensures Valid()
      ensures forall e :: e in list ==> e in old(list)
      ensures Contents() == old(Contents())[..|old(list)| - 1]
    {
      TrimmedAgree(list, items);
      hide Agree;
      var oldest := list[|list| - 1];
      list := list[..|list| - 1];
      items := items - {oldest.key};
    }

    /** Put of a key that is there: its element in place, then to the front. */
    method Replace(key: string, value: V)
      requires Valid() && key in items
      modifies this`list, list
      ensures Valid()
      ensures forall e :: e in list ==> e in old(list)
      ensures Contents() == AfterPut(capacity, old(Contents()), key, value)
    {
      var e := items[key];
      ghost var p :| 0 <= p < |list| && list[p] == e;
      Position(key, p);
      ghost var before := Contents();
      e.value := value;
      assert Contents() == before[p := Entry(key, value)];
      hide Agree, Keys, IndexOf, ToFront, Contents;
      MoveToFront(e, p);
    }
  }
}
