/** The consumers' deduplication window: a bounded set of idempotency keys with
    least-recently-touched eviction. The window is a duplicate-free sequence of keys,
    oldest first; both language implementations are proved against the same steps. */
module Lru {
  import opened Sorting

  ghost predicate Distinct(keys: seq<Text>) {
    forall i, j :: 0 <= i < j < |keys| ==> keys[i] != keys[j]
  }

  function Remove(keys: seq<Text>, k: Text): (r: seq<Text>)
    ensures forall x :: x in r <==> x in keys && x != k
    ensures k !in keys ==> r == keys
  {
    if |keys| == 0 then []
    else (if keys[0] == k then [] else [keys[0]]) + Remove(keys[1..], k)
  }

  /** Move (or add) k to the young end. */
  function Touch(keys: seq<Text>, k: Text): seq<Text> {
    Remove(keys, k) + [k]
  }

  function LastN(keys: seq<Text>, n: nat): seq<Text> {
    if |keys| <= n then keys else keys[|keys| - n..]
  }

  function AfterSeen(keys: seq<Text>, k: Text): seq<Text> {
    if k in keys then Touch(keys, k) else keys
  }

  function AfterRecord(capacity: nat, keys: seq<Text>, k: Text): seq<Text> {
    LastN(Touch(keys, k), capacity)
  }

  // ---- Runs of window operations --------------------------------------------------

  datatype Op = Seen(key: Text) | Record(key: Text)

  function Apply(capacity: nat, keys: seq<Text>, op: Op): seq<Text> {
    match op
    case Seen(k) => AfterSeen(keys, k)
    case Record(k) => AfterRecord(capacity, keys, k)
  }

  /** The window after a whole sequence of operations on a fresh store. */
  function Run(capacity: nat, ops: seq<Op>): seq<Text> {
    if |ops| == 0 then [] else Apply(capacity, Run(capacity, ops[..|ops| - 1]), ops[|ops| - 1])
  }

  /** The keys recorded or hit by the operations, in order. */
  function Touches(capacity: nat, ops: seq<Op>): seq<Text> {
    if |ops| == 0 then []
    else
      var before := ops[..|ops| - 1];
      var op := ops[|ops| - 1];
      if op.Record? || op.key in Run(capacity, before)
      then Touches(capacity, before) + [op.key]
      else Touches(capacity, before)
  }

  /** The distinct keys other than k touched after the last touch of k. */
  function OthersSince(touches: seq<Text>, k: Text): set<Text> {
    if |touches| == 0 || touches[|touches| - 1] == k then {}
    else OthersSince(touches[..|touches| - 1], k) + {touches[|touches| - 1]}
  }

  /** All touched keys by the time of their last touch: a window without a bound. */
  function Recency(touches: seq<Text>): seq<Text> {
    if |touches| == 0 then []
    else Touch(Recency(touches[..|touches| - 1]), touches[|touches| - 1])
  }

  // ---- Removing and touching -------------------------------------------------------

  lemma {:induction false} RemoveDistinct(keys: seq<Text>, k: Text)
    requires Distinct(keys)
    ensures Distinct(Remove(keys, k)) && Distinct(Touch(keys, k))
    ensures |Remove(keys, k)| == |keys| - (if k in keys then 1 else 0)
  {
    if |keys| > 0 {
      RemoveDistinct(keys[1..], k);
      assert keys == [keys[0]] + keys[1..];
      assert keys[0] !in keys[1..];
    }
  }

  lemma {:induction false} RemoveAppend(a: seq<Text>, b: seq<Text>, k: Text)
    ensures Remove(a + b, k) == Remove(a, k) + Remove(b, k)
  {
    if |a| == 0 {
      assert a + b == b;
    } else {
      assert (a + b)[1..] == a[1..] + b;
      RemoveAppend(a[1..], b, k);
    }
  }

  lemma {:induction false} RunDistinct(capacity: nat, ops: seq<Op>)
    ensures Distinct(Run(capacity, ops)) && |Run(capacity, ops)| <= capacity
  {
    if |ops| > 0 {
      var keys := Run(capacity, ops[..|ops| - 1]);
      RunDistinct(capacity, ops[..|ops| - 1]);
      RemoveDistinct(keys, ops[|ops| - 1].key);
    }
  }

  // ---- Exactness -------------------------------------------------------------------

  lemma RecencyFacts(touches: seq<Text>)
    ensures Distinct(Recency(touches))
    ensures forall k :: k in Recency(touches) <==> k in touches
  {
    if |touches| > 0 {
      var n := |touches| - 1;
      RecencyFacts(touches[..n]);
      RemoveDistinct(Recency(touches[..n]), touches[n]);
      assert touches == touches[..n] + [touches[n]];
    }
  }

  /** Touching a bounded window is touching the unbounded one and cutting again. */
  lemma TouchSuffix(older: seq<Text>, young: seq<Text>, k: Text)
    requires Distinct(older + young)
    ensures AfterRecord(|young|, young, k) == LastN(Touch(older + young, k), |young|)
    ensures k in young ==> Touch(young, k) == LastN(Touch(older + young, k), |young|)
  {
    RemoveAppend(older, young, k);
    assert Distinct(young) by {
      assert forall i :: 0 <= i < |young| ==> young[i] == (older + young)[|older| + i];
    }
    RemoveDistinct(young, k);
    assert Touch(older + young, k) == Remove(older, k) + Touch(young, k);
    CutOff(Remove(older, k), Touch(young, k), |young|);
  }

  lemma CutOff(older: seq<Text>, young: seq<Text>, n: nat)
    requires |young| >= n
    ensures LastN(older + young, n) == LastN(young, n)
  {}

  lemma TouchLastN(r: seq<Text>, capacity: nat, k: Text)
    requires Distinct(r)
    ensures AfterRecord(capacity, LastN(r, capacity), k) == LastN(Touch(r, k), capacity)
    ensures k in LastN(r, capacity) ==> Touch(LastN(r, capacity), k) == LastN(Touch(r, k), capacity)
  {
    if |r| > capacity {
      assert r == r[..|r| - capacity] + LastN(r, capacity);
      TouchSuffix(r[..|r| - capacity], LastN(r, capacity), k);
    } else {
      RemoveDistinct(r, k);
    }
  }

  /** The window is exactly the `capacity` most recently touched keys, in order of touch. */
  lemma {:induction false} WindowIsMostRecent(capacity: nat, ops: seq<Op>)
    ensures Run(capacity, ops) == LastN(Recency(Touches(capacity, ops)), capacity)
  {
    if |ops| > 0 {
      var before, op := ops[..|ops| - 1], ops[|ops| - 1];
      WindowIsMostRecent(capacity, before);
      var t := Touches(capacity, before);
      RecencyFacts(t);
      TouchLastN(Recency(t), capacity, op.key);
      assert (t + [op.key])[..|t|] == t;
    }
  }

  /** The keys after the first occurrence of k. */
  function After(keys: seq<Text>, k: Text): seq<Text>
    requires k in keys
  {
    if keys[0] == k then keys[1..] else After(keys[1..], k)
  }

  lemma {:induction false} AfterTouch(keys: seq<Text>, x: Text, k: Text)
    requires k in keys && k != x
    ensures k in Touch(keys, x) && After(Touch(keys, x), k) == Touch(After(keys, k), x)
  {
    assert Remove(keys, x) == (if keys[0] == x then [] else [keys[0]]) + Remove(keys[1..], x);
    if keys[0] == k {
      assert Touch(keys, x)[1..] == Touch(keys[1..], x);
    } else {
      AfterTouch(keys[1..], x, k);
      if keys[0] == x {
        assert Touch(keys, x) == Touch(keys[1..], x);
      } else {
        assert Touch(keys, x)[1..] == Touch(keys[1..], x);
      }
    }
  }

  lemma {:induction false} AfterLast(keys: seq<Text>, k: Text)
    requires k !in keys
    ensures After(keys + [k], k) == []
  {
    if |keys| > 0 {
      assert (keys + [k])[1..] == keys[1..] + [k];
      AfterLast(keys[1..], k);
    }
  }

  lemma {:induction false} AfterIsOthersSince(touches: seq<Text>, k: Text)
    requires k in touches
    ensures k in Recency(touches)
    ensures (set x | x in After(Recency(touches), k)) == OthersSince(touches, k)
  {
    RecencyFacts(touches);
    var n := |touches| - 1;
    var x := touches[n];
    var r := Recency(touches[..n]);
    if x == k {
      AfterLast(Remove(r, k), k);
    } else {
      assert touches == touches[..n] + [x];
      AfterIsOthersSince(touches[..n], k);
      AfterTouch(r, x, k);
    }
  }

  lemma {:induction false} AfterFacts(keys: seq<Text>, k: Text, n: nat)
    requires Distinct(keys) && k in keys
    ensures Distinct(After(keys, k)) && |After(keys, k)| < |keys|
    ensures k in LastN(keys, n) <==> |After(keys, k)| < n
  {
    if keys[0] == k {
      assert keys == [k] + keys[1..];
    } else {
      AfterFacts(keys[1..], k, n);
      assert keys == [keys[0]] + keys[1..];
      assert |keys| > n ==> LastN(keys, n) == LastN(keys[1..], n);
    }
  }

  lemma {:induction false} DistinctCount(keys: seq<Text>)
    requires Distinct(keys)
    ensures |set x | x in keys| == |keys|
  {
    if |keys| > 0 {
      DistinctCount(keys[1..]);
      assert keys == [keys[0]] + keys[1..];
      assert (set x | x in keys) == {keys[0]} + (set x | x in keys[1..]);
      assert keys[0] !in keys[1..];
    }
  }

  /** A key is in the window exactly when it was touched and fewer than `capacity`
      distinct other keys were touched since. */
  lemma WindowExactness(capacity: nat, ops: seq<Op>, k: Text)
    ensures k in Run(capacity, ops) <==>
            k in Touches(capacity, ops) && |OthersSince(Touches(capacity, ops), k)| < capacity
  {
    var t := Touches(capacity, ops);
    WindowIsMostRecent(capacity, ops);
    RecencyFacts(t);
    if k in t {
      AfterIsOthersSince(t, k);
      AfterFacts(Recency(t), k, capacity);
      DistinctCount(After(Recency(t), k));
    }
  }

  // ---- Inclusion -------------------------------------------------------------------

  /** The members of keys that also occur in other, in the order of keys. */
  function Keep(keys: seq<Text>, other: seq<Text>): (r: seq<Text>)
    ensures forall x :: x in r <==> x in keys && x in other
  {
    if |keys| == 0 then []
    else (if keys[0] in other then [keys[0]] else []) + Keep(keys[1..], other)
  }

  lemma {:induction false} KeepAgree(keys: seq<Text>, a: seq<Text>, b: seq<Text>)
    requires forall x :: x in keys ==> (x in a <==> x in b)
    ensures Keep(keys, a) == Keep(keys, b)
  {
    if |keys| > 0 {
      assert keys[0] in keys;
      KeepAgree(keys[1..], a, b);
    }
  }

  lemma {:induction false} KeepAppend(keys: seq<Text>, k: Text, other: seq<Text>)
    ensures Keep(keys + [k], other) == Keep(keys, other) + (if k in other then [k] else [])
  {
    if |keys| > 0 {
      assert (keys + [k])[1..] == keys[1..] + [k];
      KeepAppend(keys[1..], k, other);
    }
  }

  lemma ConsSteps(x: Text, rest: seq<Text>, k: Text, other: seq<Text>)
    ensures Remove([x] + rest, k) == (if x == k then [] else [x]) + Remove(rest, k)
    ensures Keep([x] + rest, other) == (if x in other then [x] else []) + Keep(rest, other)
  {
    assert ([x] + rest)[1..] == rest;
  }

  lemma {:induction false} KeepRemove(keys: seq<Text>, k: Text, other: seq<Text>)
    ensures Keep(Remove(keys, k), other) == Remove(Keep(keys, other), k)
    ensures k !in other ==> Keep(Remove(keys, k), other) == Keep(keys, other)
  {
    if |keys| > 0 {
      var x, rest := keys[0], keys[1..];
      KeepRemove(rest, k, other);
      assert [] + Remove(rest, k) == Remove(rest, k) && [] + Keep(rest, other) == Keep(rest, other);
      if x != k {
        ConsSteps(x, Remove(rest, k), k, other);
      }
      if x in other {
        ConsSteps(x, Keep(rest, other), k, other);
      }
    }
  }

  /** small is the age-ordered subsequence of big made of its members. */
  ghost predicate SubWindow(small: seq<Text>, big: seq<Text>) {
    small == Keep(big, small)
  }

  lemma SubTouch(small: seq<Text>, big: seq<Text>, k: Text)
    requires SubWindow(small, big)
    ensures SubWindow(Touch(small, k), Touch(big, k))
    ensures k !in small ==> SubWindow(small, Touch(big, k))
  {
    KeepAppend(Remove(big, k), k, Touch(small, k));
    KeepAppend(Remove(big, k), k, small);
    KeepRemove(big, k, small);
    KeepAgree(Remove(big, k), Touch(small, k), small);
  }

  lemma SubEvictSmall(small: seq<Text>, big: seq<Text>)
    requires SubWindow(small, big) && |small| > 0 && Distinct(small)
    ensures SubWindow(small[1..], big)
  {
    KeepRemove(big, small[0], small);
    KeepAgree(big, small, small);
    assert small == [small[0]] + small[1..];
    assert Remove(small, small[0]) == Remove(small[1..], small[0]) == small[1..];
    KeepAgree(Remove(big, small[0]), small, small[1..]);
    KeepRemove(big, small[0], small[1..]);
  }

  lemma SubEvictBoth(small: seq<Text>, big: seq<Text>)
    requires SubWindow(small, big) && Distinct(small) && Distinct(big) && |small| > 0
    ensures |big| > 0 && SubWindow(small[1..], big[1..])
  {
    assert |big| > 0;
    SubEvictSmall(small, big);
    assert big[0] in small ==> small[0] == big[0];
    assert small == [small[0]] + small[1..];
    assert big[0] !in small[1..];
  }

  /** On one shared sequence of operations, a smaller window is always the age-ordered
      subsequence of a larger one, and as full as it can be. */
  lemma {:induction false} WindowInclusion(small: nat, big: nat, ops: seq<Op>)
    requires small <= big
    ensures SubWindow(Run(small, ops), Run(big, ops))
    ensures |Run(small, ops)| == if small <= |Run(big, ops)| then small else |Run(big, ops)|
  {
    if |ops| > 0 {
      var before, op := ops[..|ops| - 1], ops[|ops| - 1];
      WindowInclusion(small, big, before);
      var s, b := Run(small, before), Run(big, before);
      RunDistinct(small, before);
      RunDistinct(big, before);
      InclusionStep(small, big, s, b, op);
    }
  }

  lemma InclusionStep(small: nat, big: nat, s: seq<Text>, b: seq<Text>, op: Op)
    requires small <= big && SubWindow(s, b) && Distinct(s) && Distinct(b)
    requires |b| <= big && |s| == if small <= |b| then small else |b|
    ensures var s', b' := Apply(small, s, op), Apply(big, b, op);
            SubWindow(s', b') && |s'| == if small <= |b'| then small else |b'|
  {
    var k := op.key;
    SubTouch(s, b, k);
    RemoveDistinct(s, k);
    RemoveDistinct(b, k);
    if op.Record? {
      assert k in b && k !in s ==> |s| < |b| by {
        if k in b && |s| == |b| { KeepAll(b, s); }
      }
      RecordInclusion(small, big, Touch(s, k), Touch(b, k));
    }
  }

  lemma {:induction false} KeepAll(keys: seq<Text>, other: seq<Text>)
    ensures |Keep(keys, other)| <= |keys|
    ensures |Keep(keys, other)| == |keys| ==> forall x :: x in keys ==> x in other
  {
    if |keys| > 0 {
      KeepAll(keys[1..], other);
    }
  }

  lemma RecordInclusion(small: nat, big: nat, s: seq<Text>, b: seq<Text>)
    requires small <= big && SubWindow(s, b) && Distinct(s) && Distinct(b)
    requires 0 < |s| <= small + 1 && |s| <= |b| <= big + 1
    requires |b| > big ==> |s| > small
    ensures SubWindow(LastN(s, small), LastN(b, big))
  {
    if |b| > big {
      SubEvictBoth(s, b);
    } else if |s| > small {
      SubEvictSmall(s, b);
    }
  }

  /** A larger window catches every duplicate that a smaller one catches. */
  lemma LargerWindowMissesNoDuplicate(small: nat, big: nat, ops: seq<Op>, k: Text)
    requires small <= big && k in Run(small, ops)
    ensures k in Run(big, ops)
  {
    WindowInclusion(small, big, ops);
  }

  /** Capacities that a run cannot fill all give the same window: the unbounded one. */
  lemma {:induction false} LargeCapacitiesAgree(c: nat, d: nat, ops: seq<Op>)
    requires |ops| <= c && |ops| <= d
    ensures Run(c, ops) == Run(d, ops) && |Run(c, ops)| <= |ops|
  {
    if |ops| > 0 {
      var before, op := ops[..|ops| - 1], ops[|ops| - 1];
      LargeCapacitiesAgree(c, d, before);
      RunDistinct(c, before);
      RemoveDistinct(Run(c, before), op.key);
    }
  }

  // ---- The two implementations -----------------------------------------------------

  /** Insertion-ordered dictionary assignment: an existing key keeps its place. */
  function Assign(keys: seq<Text>, k: Text): seq<Text> {
    if k in keys then keys else keys + [k]
  }

  lemma DistinctTail(keys: seq<Text>)
    requires Distinct(keys) && |keys| > 0
    ensures Distinct(keys[1..]) && keys[0] !in keys[1..]
  {
    forall i, j | 0 <= i < j < |keys[1..]| ensures keys[1..][i] != keys[1..][j] {
      assert keys[i + 1] != keys[j + 1];
    }
  }

  lemma LastNDropsOldest(keys: seq<Text>, n: nat)
    requires |keys| > n
    ensures LastN(keys[1..], n) == LastN(keys, n)
  {}

  /** Evicting the oldest key of an overfull window leaves the youngest ones alone. */
  lemma EvictOldest(keys: seq<Text>, capacity: nat)
    requires Distinct(keys) && |keys| > capacity
    ensures Remove(keys, keys[0]) == keys[1..] && Distinct(keys[1..])
    ensures LastN(keys[1..], capacity) == LastN(keys, capacity)
  {
    DistinctTail(keys);
    LastNDropsOldest(keys, capacity);
  }

  /** Assigning after removing, and moving to the end after assigning, both touch. */
  lemma AssignTouches(keys: seq<Text>, k: Text)
    ensures Assign(Remove(keys, k), k) == Touch(keys, k) == Touch(Assign(keys, k), k)
  {
    if k !in keys {
      RemoveAppend(keys, [k], k);
      assert Remove([k], k) == [];
    }
  }

  /** The Python store over an OrderedDict. */
  class PythonDedupStore {
    const capacity: nat
    var keys: seq<Text>

    ghost predicate Valid()
      reads this
    {
      capacity >= 1 && Distinct(keys) && |keys| <= capacity
    }

    constructor (capacity: nat)
      requires capacity >= 1
      ensures Valid() && keys == [] && this.capacity == capacity
    {
      this.capacity := capacity;
      keys := [];
    }

    method MoveToEnd(k: Text)
      requires k in keys
      modifies this
      ensures keys == Touch(old(keys), k)
    {
      keys := Remove(keys, k) + [k];
    }

    method Seen(k: Text) returns (hit: bool)
      requires Valid()
      modifies this
      ensures Valid()
      ensures hit == (k in old(keys)) && keys == AfterSeen(old(keys), k)
    {
      RemoveDistinct(keys, k);
      if k in keys {
        MoveToEnd(k);
        return true;
      }
      return false;
    }

    method Record(k: Text)
      requires Valid()
      modifies this
      ensures Valid()
      ensures keys == AfterRecord(capacity, old(keys), k)
    {
      RemoveDistinct(keys, k);
      AssignTouches(keys, k);
      ghost var touched := Touch(keys, k);
      keys := Assign(keys, k);
      MoveToEnd(k);
      while |keys| > capacity
        invariant Distinct(keys) && LastN(keys, capacity) == LastN(touched, capacity)
      {
        EvictOldest(keys, capacity);
        keys := keys[1..];
      }
    }
  }

  /** A JavaScript number, as a capacity. */
  datatype JsNumber = Finite(value: real) | Infinite(negative: bool) | NaN

  predicate BelowOne(c: JsNumber) {
    match c
    case Finite(r) => r < 1.0
    case Infinite(negative) => negative
    case NaN => false
  }

  /** The comparison size > capacity. */
  predicate Exceeds(size: nat, c: JsNumber) {
    match c
    case Finite(r) => size as real > r
    case Infinite(negative) => negative
    case NaN => false
  }

  /** How many of n keys the capacity keeps: a fraction acts as its floor, NaN and Infinity
      never evict. */
  function Room(c: JsNumber, n: nat): nat
    requires !BelowOne(c)
  {
    if c.Finite? then c.value.Floor else n
  }

  lemma ExceedsIffOverRoom(size: nat, c: JsNumber, n: nat)
    requires !BelowOne(c) && size <= n
    ensures Exceeds(size, c) <==> size > Room(c, n)
  {}

  /** The TypeScript store over an insertion-ordered Map. */
  class TypeScriptDedupStore {
    const capacity: JsNumber
    var keys: seq<Text>

    ghost predicate Valid()
      reads this
    {
      !BelowOne(capacity) && Distinct(keys) && !Exceeds(|keys|, capacity)
    }

    /** A bound on the window that acts as the capacity does when one key is recorded. */
    ghost function Bound(): nat
      reads this
      requires Valid()
    {
      Room(capacity, |keys| + 1)
    }

    constructor (capacity: JsNumber)
      requires !BelowOne(capacity)
      ensures Valid() && keys == [] && this.capacity == capacity
    {
      this.capacity := capacity;
      keys := [];
    }

    method Seen(k: Text) returns (hit: bool)
      requires Valid()
      modifies this
      ensures Valid()
      ensures hit == (k in old(keys)) && keys == AfterSeen(old(keys), k)
    {
      RemoveDistinct(keys, k);
      if k in keys {
        AssignTouches(keys, k);
        keys := Remove(keys, k);
        keys := Assign(keys, k);
        return true;
      }
      return false;
    }

    method Record(k: Text)
      requires Valid()
      modifies this
      ensures Valid()
      ensures keys == AfterRecord(old(Bound()), old(keys), k)
    {
      RemoveDistinct(keys, k);
      AssignTouches(keys, k);
      ghost var touched, room, most := Touch(keys, k), Bound(), |keys| + 1;
      keys := Remove(keys, k);
      keys := Assign(keys, k);
      ExceedsIffOverRoom(|keys|, capacity, most);
      while Exceeds(|keys|, capacity)
        invariant Distinct(keys) && |keys| <= most && LastN(keys, room) == LastN(touched, room)
        invariant Exceeds(|keys|, capacity) <==> |keys| > room
        decreases |keys|
      {
        EvictOldest(keys, room);
        keys := Remove(keys, keys[0]);
        ExceedsIffOverRoom(|keys|, capacity, most);
      }
    }
  }

  /** Construction refuses a capacity below one, in either language. */
  method NewPythonStore(capacity: int) returns (store: PythonDedupStore?)
    ensures store == null <==> capacity < 1
    ensures store != null ==> fresh(store) && store.Valid() && store.keys == [] && store.capacity == capacity
  {
    if capacity < 1 { return null; }
    store := new PythonDedupStore(capacity);
  }

  method NewTypeScriptStore(capacity: JsNumber) returns (store: TypeScriptDedupStore?)
    ensures store == null <==> BelowOne(capacity)
    ensures store != null ==> fresh(store) && store.Valid() && store.keys == [] && store.capacity == capacity
  {
    if BelowOne(capacity) { return null; }
    store := new TypeScriptDedupStore(capacity);
  }
}
