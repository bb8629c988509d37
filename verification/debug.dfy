/** ui/widget/debug.rs: the bounded logs of recent keys and messages shown in the debug pane. */
module Debug {
  import K = Key

  /** `append_item`: at capacity the oldest element is dropped, then the item goes at the back. */
  function AppendItem<T>(dest: seq<T>, capacity: nat, item: T): (r: seq<T>)
    requires 0 < capacity && |dest| <= capacity
    ensures |r| <= capacity
    ensures |r| == if |dest| == capacity then capacity else |dest| + 1
    ensures r[|r| - 1] == item
  {
    if |dest| == capacity then dest[1..] + [item] else dest + [item]
  }

  /** The last `n` elements of `xs`, or all of them when there are fewer. */
  function Newest<T>(xs: seq<T>, n: nat): seq<T> {
    if |xs| <= n then xs else xs[|xs| - n..]
  }

  /** One append keeps exactly the newest `capacity` elements of everything seen, in arrival order. */
  lemma AppendItemKeepsNewest<T>(dest: seq<T>, capacity: nat, item: T)
    requires 0 < capacity && |dest| <= capacity
    ensures AppendItem(dest, capacity, item) == Newest(dest + [item], capacity)
  {
  }

  /** Appending several items one by one. */
  function AppendAll<T>(dest: seq<T>, capacity: nat, items: seq<T>): seq<T>
    requires 0 < capacity && |dest| <= capacity
    decreases |items|
  {
    if |items| == 0 then dest
    else AppendAll(AppendItem(dest, capacity, items[0]), capacity, items[1..])
  }

  lemma NewestOfNewest<T>(xs: seq<T>, ys: seq<T>, n: nat)
    ensures Newest(Newest(xs, n) + ys, n) == Newest(xs + ys, n)
  {
    if |xs| > n {
      var zs := xs[|xs| - n..];
      if |zs + ys| > n {
        assert (zs + ys)[|zs + ys| - n..] == (xs + ys)[|xs + ys| - n..];
      }
    }
  }

  /** However many items arrive, the buffer holds the newest `capacity` of them, oldest first. */
  lemma {:induction false} AppendAllKeepsNewest<T>(dest: seq<T>, capacity: nat, items: seq<T>)
    requires 0 < capacity && |dest| <= capacity
    ensures AppendAll(dest, capacity, items) == Newest(dest + items, capacity)
    decreases |items|
  {
    if |items| == 0 {
      assert dest + items == dest;
    } else {
      var d := AppendItem(dest, capacity, items[0]);
      AppendItemKeepsNewest(dest, capacity, items[0]);
      AppendAllKeepsNewest(d, capacity, items[1..]);
      NewestOfNewest(dest + [items[0]], items[1..], capacity);
      assert dest + [items[0]] + items[1..] == dest + items;
    }
  }

  /** A log time, as epoch milliseconds; the clock is an input. */
  type Time = int

  /** `DebugData`: numbered keys, the key counter and timestamped messages, each log bounded by the
      capacity its deque was created with. */
  datatype DebugData = DebugData(keys: seq<(nat, K.Key)>, keyNo: nat, logs: seq<(Time, string)>, capacity: nat)

  /** Both logs within capacity, and the kept keys numbered consecutively up to the counter. */
  predicate Valid(d: DebugData) {
    && 0 < d.capacity
    && |d.keys| <= d.capacity && |d.logs| <= d.capacity
    && |d.keys| <= d.keyNo
    && forall i :: 0 <= i < |d.keys| ==> d.keys[i].0 == d.keyNo - |d.keys| + 1 + i
  }

  const DEFAULT_CAPACITY: nat := 30

  /** `DebugData::new`. */
  function New(maxSize: nat): (d: DebugData)
    requires 0 < maxSize
    ensures Valid(d)
    ensures d.keys == [] && d.logs == [] && d.keyNo == 0 && d.capacity == maxSize
  {
    DebugData([], 0, [], maxSize)
  }

  /** `DebugData::default`. */
  function Default(): (d: DebugData)
    ensures Valid(d) && d.capacity == 30 && d.keys == [] && d.logs == []
  {
    New(DEFAULT_CAPACITY)
  }

  /** `append_key`: the counter is advanced first, so keys are numbered from 1. */
  function AppendKey(d: DebugData, key: K.Key): (r: DebugData)
    requires Valid(d)
    ensures Valid(r)
    ensures r.keyNo == d.keyNo + 1
    ensures r.keys == Newest(d.keys + [(d.keyNo + 1, key)], d.capacity)
    ensures r.logs == d.logs && r.capacity == d.capacity
  {
    var n := d.keyNo + 1;
    AppendItemKeepsNewest(d.keys, d.capacity, (n, key));
    d.(keyNo := n, keys := AppendItem(d.keys, d.capacity, (n, key)))
  }

  /** `append_log`, with the clock reading passed in. */
  function AppendLog(d: DebugData, now: Time, msg: string): (r: DebugData)
    requires Valid(d)
    ensures Valid(r)
    ensures r.logs == Newest(d.logs + [(now, msg)], d.capacity)
    ensures r.keys == d.keys && r.keyNo == d.keyNo && r.capacity == d.capacity
  {
    AppendItemKeepsNewest(d.logs, d.capacity, (now, msg));
    d.(logs := AppendItem(d.logs, d.capacity, (now, msg)))
  }

  /** The first key recorded is number 1, the next number 2. */
  lemma KeysNumberedFromOne(k1: K.Key, k2: K.Key)
    ensures AppendKey(Default(), k1).keys == [(1, k1)]
    ensures AppendKey(AppendKey(Default(), k1), k2).keys == [(1, k1), (2, k2)]
  {
  }
}
