/** What the answer cache means: the entries in order of recency (internal/rag/cache.go). */
module LruSpec {
  import opened Wrappers

  datatype Entry<V> = Entry(key: string, value: V)

  /** Most recently used first. */
  type Recency<V> = seq<Entry<V>>

  function Keys<V>(c: Recency<V>): (r: seq<string>)
    ensures |r| == |c|
  {
    seq(|c|, i requires 0 <= i < |c| => c[i].key)
  }

  ghost predicate Distinct(keys: seq<string>) {
    forall i, j :: 0 <= i < j < |keys| ==> keys[i] != keys[j]
  }

  function IndexOf(keys: seq<string>, k: string): (i: nat)
    ensures i <= |keys| && (i < |keys| <==> k in keys) && (i < |keys| ==> keys[i] == k) && k !in keys[..i]
  {
    if keys == [] then 0 else if keys[0] == k then 0 else IndexOf(keys[1..], k) + 1
  }

  /** The entry at `i` becomes the first. */
  function ToFront<V>(c: Recency<V>, i: nat): Recency<V>
    requires i < |c|
  {
    [c[i]] + c[..i] + c[i + 1..]
  }

  function Lookup<V>(c: Recency<V>, k: string): Option<V> {
    var i := IndexOf(Keys(c), k);
    if i < |c| then Some(c[i].value) else None
  }

  function AfterGet<V>(c: Recency<V>, k: string): Recency<V> {
    var i := IndexOf(Keys(c), k);
    if i < |c| then ToFront(c, i) else c
  }

  function AfterPut<V>(capacity: nat, c: Recency<V>, k: string, v: V): Recency<V> {
    var i := IndexOf(Keys(c), k);
    if i < |c| then ToFront(c[i := Entry(k, v)], i)
    else
      var longer := [Entry(k, v)] + c;
      if |longer| > capacity then longer[..|longer| - 1] else longer
  }

  // ---- a history of calls

  datatype Event<V> = Get(key: string) | Put(key: string, value: V)

  function Run<V>(capacity: nat, events: seq<Event<V>>): Recency<V> {
    if events == [] then []
    else
      var c := Run(capacity, events[..|events| - 1]);
      match events[|events| - 1]
      case Get(k) => AfterGet(c, k)
      case Put(k, v) => AfterPut(capacity, c, k, v)
  }

  /** The keys touched since `k` was, other than `k`; `touched` has the latest first. */
  function OthersSince(touched: seq<string>, k: string): set<string> {
    set i | 0 <= i < IndexOf(touched, k) :: touched[i]
  }

  /** The condition a caller can check without the cache: the key was put, and fewer than
      `capacity` other keys were touched since it was. */
  predicate Retained(capacity: nat, touched: seq<string>, k: string) {
    k in touched && |OthersSince(touched, k)| < capacity
  }

  /** The keys touched by a history, the latest first: by each Put, and by each Get whose
      key is retained. */
  function Touched<V>(capacity: nat, events: seq<Event<V>>): seq<string> {
    if events == [] then []
    else
      var t := Touched(capacity, events[..|events| - 1]);
      match events[|events| - 1]
      case Get(k) => if Retained(capacity, t, k) then [k] + t else t
      case Put(k, _) => [k] + t
  }

  function LastPut<V>(events: seq<Event<V>>, k: string): Option<V> {
    if events == [] then None
    else
      match events[|events| - 1]
      case Put(key, v) => if key == k then Some(v) else LastPut(events[..|events| - 1], k)
      case Get(_) => LastPut(events[..|events| - 1], k)
  }

  // ---- the keys without repetition

  function Without(keys: seq<string>, k: string): seq<string> {
    if keys == [] then []
    else if keys[0] == k then Without(keys[1..], k)
    else [keys[0]] + Without(keys[1..], k)
  }

  /** Each key at its latest touch only. */
  function Latest(touched: seq<string>): seq<string> {
    if touched == [] then [] else [touched[0]] + Without(Latest(touched[1..]), touched[0])
  }

  function Take(n: nat, keys: seq<string>): seq<string> {
    if |keys| <= n then keys else keys[..n]
  }

  lemma {:induction false} WithoutAbsent(keys: seq<string>, k: string)
    requires k !in keys
    ensures Without(keys, k) == keys
  {
    if keys != [] {
      WithoutAbsent(keys[1..], k);
    }
  }

  lemma {:induction false} WithoutConcat(a: seq<string>, b: seq<string>, k: string)
    ensures Without(a + b, k) == Without(a, k) + Without(b, k)
  {
    if a == [] {
      assert a + b == b;
    } else {
      assert (a + b)[1..] == a[1..] + b;
      WithoutConcat(a[1..], b, k);
    }
  }

  /** Of keys that are distinct exactly the one at its index goes. */
  lemma WithoutAt(keys: seq<string>, k: string)
    requires Distinct(keys) && k in keys
    ensures
      var i := IndexOf(keys, k);
      Without(keys, k) == keys[..i] + keys[i + 1..]
  {
    var i := IndexOf(keys, k);
    assert keys == keys[..i] + ([k] + keys[i + 1..]);
    assert k !in keys[i + 1..];
    WithoutAbsent(keys[..i], k);
    WithoutAbsent(keys[i + 1..], k);
    WithoutConcat(keys[..i], [k] + keys[i + 1..], k);
    assert ([k] + keys[i + 1..])[1..] == keys[i + 1..];
  }

  lemma {:induction false} WithoutMembers(keys: seq<string>, k: string)
    ensures forall x :: x in Without(keys, k) <==> x in keys && x != k
  {
    if keys != [] {
      assert keys == [keys[0]] + keys[1..];
      WithoutMembers(keys[1..], k);
    }
  }

  lemma ConsDistinct(x: string, keys: seq<string>)
    requires Distinct(keys) && x !in keys
    ensures Distinct([x] + keys)
  {
  }

  lemma {:induction false} WithoutDistinct(keys: seq<string>, k: string)
    requires Distinct(keys)
    ensures Distinct(Without(keys, k))
  {
    if keys != [] {
      assert keys[0] !in keys[1..];
      WithoutMembers(keys[1..], k);
      WithoutDistinct(keys[1..], k);
      ConsDistinct(keys[0], Without(keys[1..], k));
    }
  }

  lemma {:induction false} LatestDistinct(touched: seq<string>)
    ensures Distinct(Latest(touched)) && forall x :: x in Latest(touched) <==> x in touched
  {
    if touched != [] {
      assert touched == [touched[0]] + touched[1..];
      LatestDistinct(touched[1..]);
      WithoutDistinct(Latest(touched[1..]), touched[0]);
      WithoutMembers(Latest(touched[1..]), touched[0]);
      ConsDistinct(touched[0], Without(Latest(touched[1..]), touched[0]));
    }
  }

  // ---- where a key stands among them

  lemma OthersCons(x: string, keys: seq<string>, k: string)
    ensures x == k ==> OthersSince([x] + keys, k) == {}
    ensures x != k ==> OthersSince([x] + keys, k) == {x} + OthersSince(keys, k)
  {
    var all := [x] + keys;
    assert all[1..] == keys;
    if x != k {
      assert IndexOf(all, k) == IndexOf(keys, k) + 1;
      forall y ensures y in OthersSince(all, k) <==> y in {x} + OthersSince(keys, k) {
        if y in OthersSince(keys, k) {
          var i :| 0 <= i < IndexOf(keys, k) && keys[i] == y;
          assert all[i + 1] == y;
        }
      }
    }
  }

  lemma {:induction false} OthersWithout(keys: seq<string>, x: string, k: string)
    requires x != k
    ensures OthersSince(Without(keys, x), k) == OthersSince(keys, k) - {x}
  {
    hide IndexOf, OthersSince;
    if keys == [] {
      assert OthersSince([], k) == {} by { NoneSince(k); }
    } else {
      assert keys == [keys[0]] + keys[1..];
      OthersCons(keys[0], keys[1..], k);
      OthersWithout(keys[1..], x, k);
      OthersCons(keys[0], Without(keys[1..], x), k);
    }
  }

  lemma NoneSince(k: string)
    ensures OthersSince([], k) == {}
  {
  }

  /** What was touched since a key are the keys before it. */
  lemma {:induction false} LatestOthers(touched: seq<string>, k: string)
    ensures OthersSince(Latest(touched), k) == OthersSince(touched, k)
  {
    hide IndexOf, OthersSince, Without;
    if touched != [] {
      var x, rest := touched[0], touched[1..];
      assert touched == [x] + rest;
      LatestOthers(rest, k);
      OthersCons(x, rest, k);
      OthersCons(x, Without(Latest(rest), x), k);
      if x != k {
        OthersWithout(Latest(rest), x, k);
      }
    }
  }

  lemma {:induction false} PrefixSize(keys: seq<string>, n: nat)
    requires Distinct(keys) && n <= |keys|
    ensures |set i | 0 <= i < n :: keys[i]| == n
  {
    var s := set i | 0 <= i < n :: keys[i];
    if n > 0 {
      PrefixSize(keys, n - 1);
      var shorter := set i | 0 <= i < n - 1 :: keys[i];
      assert s == shorter + {keys[n - 1]};
      assert keys[n - 1] !in shorter;
    } else {
      assert s == {};
    }
  }

  lemma RetainedIsEarly(capacity: nat, touched: seq<string>, k: string)
    ensures Retained(capacity, touched, k) <==> k in Latest(touched) && IndexOf(Latest(touched), k) < capacity
  {
    LatestDistinct(touched);
    LatestOthers(touched, k);
    var keys := Latest(touched);
    PrefixSize(keys, IndexOf(keys, k));
    hide Latest, IndexOf;
    assert OthersSince(keys, k) == set i | 0 <= i < IndexOf(keys, k) :: keys[i];
  }

  lemma {:induction false} IndexTaken(n: nat, keys: seq<string>, k: string)
    ensures k in Take(n, keys) <==> k in keys && IndexOf(keys, k) < n
    ensures k in Take(n, keys) ==> IndexOf(Take(n, keys), k) == IndexOf(keys, k)
  {
    var i := IndexOf(keys, k);
    if n < |keys| && i < n {
      assert keys[..n][i] == k;
      FirstIndex(keys[..n], k, i);
    } else if n < |keys| {
      assert forall j :: 0 <= j < n ==> keys[j] in keys[..i];
    }
  }

  lemma {:induction false} FirstIndex(keys: seq<string>, k: string, i: nat)
    requires i < |keys| && keys[i] == k && k !in keys[..i]
    ensures IndexOf(keys, k) == i
  {
    if i > 0 {
      assert keys[0] in keys[..i];
      assert keys[1..][..i - 1] == keys[..i][1..];
      FirstIndex(keys[1..], k, i - 1);
    }
  }

  // ---- one call

  lemma TakeMoved(n: nat, keys: seq<string>, k: string)
    requires Distinct(keys) && k in Take(n, keys)
    ensures
      var i := IndexOf(Take(n, keys), k);
      Take(n, [k] + Without(keys, k)) == [k] + Take(n, keys)[..i] + Take(n, keys)[i + 1..]
  {
    IndexTaken(n, keys, k);
    WithoutAt(keys, k);
    var i := IndexOf(keys, k);
    hide IndexOf, Without, Distinct, Take;
    MovedPrefix(n, keys, k, i);
  }

  lemma MovedPrefix(n: nat, keys: seq<string>, k: string, i: nat)
    requires i < n && i < |keys|
    ensures i < |Take(n, keys)|
    ensures Take(n, [k] + (keys[..i] + keys[i + 1..])) == [k] + Take(n, keys)[..i] + Take(n, keys)[i + 1..]
  {
    var moved := [k] + (keys[..i] + keys[i + 1..]);
    if |keys| > n {
      assert moved[..n] == [k] + keys[..n][..i] + keys[..n][i + 1..];
    } else {
      assert moved == [k] + keys[..i] + keys[i + 1..];
    }
  }

  lemma TakeAdded(n: nat, keys: seq<string>, k: string)
    requires Distinct(keys) && k !in Take(n, keys) && n > 0
    ensures Take(n, [k] + Without(keys, k)) == Take(n, [k] + Take(n, keys))
  {
    IndexTaken(n, keys, k);
    if k in keys {
      WithoutAt(keys, k);
    } else {
      WithoutAbsent(keys, k);
    }
    hide IndexOf, Without;
  }

  lemma MovedKeys<V>(c: Recency<V>, k: string, i: nat)
    requires i < |c| && c[i].key == k
    ensures Keys(ToFront(c, i)) == [k] + Keys(c)[..i] + Keys(c)[i + 1..]
  {
    var moved, keys := ToFront(c, i), Keys(c);
    var want := [k] + keys[..i] + keys[i + 1..];
    assert forall j :: 0 <= j < |c| ==> keys[j] == c[j].key && Keys(moved)[j] == moved[j].key;
    hide Keys;
    forall j | 0 <= j < |c| ensures moved[j].key == want[j] {
      assert moved[j] == if j == 0 then c[i] else if j <= i then c[j - 1] else c[j];
    }
  }

  lemma AddedKeys<V>(capacity: nat, c: Recency<V>, e: Entry<V>)
    requires |c| <= capacity
    ensures
      var longer := [e] + c;
      Keys(if |longer| > capacity then longer[..|longer| - 1] else longer) == Take(capacity, [e.key] + Keys(c))
  {
    var longer := [e] + c;
    ConsKeys(e, c);
    if |longer| > capacity {
      InitKeys(longer);
    }
    hide Keys;
  }

  lemma ConsKeys<V>(e: Entry<V>, c: Recency<V>)
    ensures Keys([e] + c) == [e.key] + Keys(c)
  {
  }

  lemma InitKeys<V>(c: Recency<V>)
    requires c != []
    ensures Keys(c[..|c| - 1]) == Keys(c)[..|c| - 1]
  {
  }

  /** The cache's keys are those of the latest touches, up to its capacity. */
  ghost predicate KeepsLatest<V>(capacity: nat, c: Recency<V>, touched: seq<string>) {
    Keys(c) == Take(capacity, Latest(touched))
  }

  lemma HitIffRetained<V>(capacity: nat, c: Recency<V>, touched: seq<string>, k: string)
    requires KeepsLatest(capacity, c, touched)
    ensures IndexOf(Keys(c), k) < |c| <==> Retained(capacity, touched, k)
  {
    RetainedIsEarly(capacity, touched, k);
    IndexTaken(capacity, Latest(touched), k);
    hide Latest, Retained, Take;
  }

  lemma TouchKeeps<V>(capacity: nat, c: Recency<V>, touched: seq<string>, k: string)
    requires KeepsLatest(capacity, c, touched) && IndexOf(Keys(c), k) < |c|
    ensures KeepsLatest(capacity, ToFront(c, IndexOf(Keys(c), k)), [k] + touched)
  {
    LatestDistinct(touched);
    LatestCons(k, touched);
    hide Latest, Take, IndexOf, ToFront;
    TakeMoved(capacity, Latest(touched), k);
    MovedKeys(c, k, IndexOf(Keys(c), k));
  }

  lemma LatestCons(k: string, touched: seq<string>)
    ensures Latest([k] + touched) == [k] + Without(Latest(touched), k)
  {
    assert ([k] + touched)[1..] == touched;
  }

  lemma GetKeeps<V>(capacity: nat, c: Recency<V>, touched: seq<string>, k: string)
    requires KeepsLatest(capacity, c, touched)
    ensures KeepsLatest(capacity, AfterGet(c, k), if Retained(capacity, touched, k) then [k] + touched else touched)
  {
    hide KeepsLatest, Retained, IndexOf;
    HitIffRetained(capacity, c, touched, k);
    if IndexOf(Keys(c), k) < |c| {
      TouchKeeps(capacity, c, touched, k);
    }
  }

  lemma PutKeeps<V>(capacity: nat, c: Recency<V>, touched: seq<string>, k: string, v: V)
    requires KeepsLatest(capacity, c, touched) && capacity > 0
    ensures KeepsLatest(capacity, AfterPut(capacity, c, k, v), [k] + touched)
  {
    var i := IndexOf(Keys(c), k);
    if i < |c| {
      var set_ := c[i := Entry(k, v)];
      assert Keys(set_) == Keys(c);
      hide Latest, IndexOf, Take, ToFront;
      TouchKeeps(capacity, set_, touched, k);
    } else {
      LatestDistinct(touched);
      LatestCons(k, touched);
      hide Latest, IndexOf;
      TakeAdded(capacity, Latest(touched), k);
      AddedKeys(capacity, c, Entry(k, v));
    }
  }

  ghost predicate HoldsLastPuts<V>(c: Recency<V>, events: seq<Event<V>>) {
    forall i :: 0 <= i < |c| ==> LastPut(events, c[i].key) == Some(c[i].value)
  }

  lemma {:induction false} RunKeeps<V>(capacity: nat, events: seq<Event<V>>)
    requires capacity > 0
    ensures KeepsLatest(capacity, Run(capacity, events), Touched(capacity, events))
    decreases |events|
  {
    if events != [] {
      var init := events[..|events| - 1];
      RunKeeps(capacity, init);
      hide KeepsLatest, AfterGet, AfterPut, Retained;
      match events[|events| - 1] {
        case Get(k) => GetKeeps(capacity, Run(capacity, init), Touched(capacity, init), k);
        case Put(k, v) => PutKeeps(capacity, Run(capacity, init), Touched(capacity, init), k, v);
      }
    }
  }

  lemma PutValues<V>(capacity: nat, c: Recency<V>, events: seq<Event<V>>, k: string, v: V)
    requires HoldsLastPuts(c, events)
    requires Distinct(Keys(c))
    ensures HoldsLastPuts(AfterPut(capacity, c, k, v), events + [Put(k, v)])
  {
    var all := events + [Put(k, v)];
    assert all[..|all| - 1] == events;
    var i := IndexOf(Keys(c), k);
    var after := AfterPut(capacity, c, k, v);
    forall j | 0 <= j < |c| && c[j].key == k ensures j == i {
      assert Keys(c)[j] == k;
    }
    forall e | e in after ensures LastPut(all, e.key) == Some(e.value) {
      if e.key != k {
        var j :| 0 <= j < |c| && c[j] == e;
        assert LastPut(events, c[j].key) == Some(c[j].value);
      }
    }
  }

  lemma GetValues<V>(c: Recency<V>, events: seq<Event<V>>, k: string)
    requires HoldsLastPuts(c, events)
    ensures HoldsLastPuts(AfterGet(c, k), events + [Get(k)])
  {
    var all := events + [Get(k)];
    assert all[..|all| - 1] == events;
    hide IndexOf;
    forall e | e in AfterGet(c, k) ensures LastPut(all, e.key) == Some(e.value) {
      var j :| 0 <= j < |c| && c[j] == e;
      assert LastPut(events, c[j].key) == Some(c[j].value);
    }
  }

  lemma DistinctTaken(capacity: nat, touched: seq<string>)
    ensures Distinct(Take(capacity, Latest(touched)))
  {
    LatestDistinct(touched);
    hide Latest;
  }

  lemma {:induction false} RunHoldsLastPuts<V>(capacity: nat, events: seq<Event<V>>)
    requires capacity > 0
    ensures HoldsLastPuts(Run(capacity, events), events)
    decreases |events|
  {
    if events != [] {
      var init, last := events[..|events| - 1], events[|events| - 1];
      assert events == init + [last];
      RunHoldsLastPuts(capacity, init);
      RunKeeps(capacity, init);
      DistinctTaken(capacity, Touched(capacity, init));
      hide Touched, AfterPut, AfterGet, Latest, HoldsLastPuts, Distinct, Take;
      match last {
        case Get(k) => GetValues(Run(capacity, init), init, k);
        case Put(k, v) => PutValues(capacity, Run(capacity, init), init, k, v);
      }
    }
  }

  /** After any history a Get hits exactly when its key was put and fewer than `capacity`
      other keys were touched since it was, and it returns what was put last. */
  lemma GetHits<V>(capacity: nat, events: seq<Event<V>>, k: string)
    requires capacity > 0
    ensures Lookup(Run(capacity, events), k) ==
      if Retained(capacity, Touched(capacity, events), k) then LastPut(events, k) else None
    ensures Retained(capacity, Touched(capacity, events), k) ==> LastPut(events, k).Some?
  {
    RunKeeps(capacity, events);
    RunHoldsLastPuts(capacity, events);
    var c := Run(capacity, events);
    HitIffRetained(capacity, c, Touched(capacity, events), k);
    hide Run, Touched, Retained, KeepsLatest, LastPut;
    var i := IndexOf(Keys(c), k);
    if i < |c| {
      assert c[i].key == k;
    }
  }

  /** A key is among the touched ones exactly when it was put. */
  lemma {:induction false} TouchedIffPut<V>(capacity: nat, events: seq<Event<V>>, k: string)
    ensures k in Touched(capacity, events) <==> LastPut(events, k).Some?
    decreases |events|
  {
    if events != [] {
      TouchedIffPut(capacity, events[..|events| - 1], k);
      hide OthersSince;
    }
  }
}
