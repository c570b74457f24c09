/** The dynamic array (`array_t`) that every other component is built on. */
module Arrays {
  import opened Words

  import opened Options

  /** The capacity reached by doubling `cap` until it covers `req`. */
  function Doubled(cap: nat, req: nat): (c: nat)
    requires cap > 0
    ensures req <= c && cap <= c
    ensures c == cap || c < 2 * req
    decreases req - cap
  {
    if req <= cap then cap else Doubled(2 * cap, req)
  }

  /** The region s after its items [from, end) were copied to `to`, overlap included. */
  function Moved<T>(s: seq<T>, from: nat, end: nat, to: nat): (r: seq<T>)
    requires from <= end <= |s| && to + (end - from) <= |s|
    ensures |r| == |s|
  {
    s[..to] + s[from..end] + s[to + (end - from)..]
  }

  lemma {:induction false} MovedKeepsPrefix<T>(s: seq<T>, from: nat, end: nat, to: nat)
    requires from <= end <= |s| && to + (end - from) <= |s|
    ensures Moved(s, from, end, to)[to..to + (end - from)] == s[from..end]
    ensures Moved(s, from, end, to)[..to] == s[..to]
    ensures from <= to ==> Moved(s, from, end, to)[..from] == s[..from]
  {
  }

  /** `size` items live in a region that can hold `capacity` of them. */
  class Array<T(0)> {
    var size: nat
    var capacity: nat
    var items: array<T>
    // Number of items moved by reallocations so far.
    ghost var copied: nat

    ghost predicate Valid()
      reads this
    {
      size <= capacity == items.Length
    }

    ghost function Contents(): (s: seq<T>)
      requires Valid()
      reads this, items
      ensures |s| == size
    {
      items[..size]
    }

    /** The array was only ever grown one item at a time from the empty array. */
    ghost predicate GrownByAdding()
      reads this
    {
      if capacity == 0 then size == copied == 0
      else copied < capacity < 2 * size
    }

    constructor ()
      ensures Valid() && fresh(items) && Contents() == []
      ensures GrownByAdding()
    {
      size, capacity, copied := 0, 0, 0;
      items := new T[0];
    }

    method Reallocate(newCapacity: nat)
      requires Valid()
      modifies this
      ensures fresh(items) && items.Length == capacity == newCapacity
      ensures size == old(size) && copied == old(copied) + size
      ensures items[..if newCapacity < old(capacity) then newCapacity else old(capacity)]
        == old(items[..if newCapacity < capacity then newCapacity else capacity])
    {
      var region := new T[newCapacity];
      var n := if newCapacity < capacity then newCapacity else capacity;
      forall i | 0 <= i < n {
        region[i] := items[i];
      }
      items, capacity, copied := region, newCapacity, copied + size;
    }

    method Grow(additional: nat)
      requires Valid()
      modifies this
      ensures Valid() && (items == old(items) || fresh(items))
      ensures Contents() == old(Contents()) && size + additional <= capacity
      ensures old(size) + additional <= old(capacity) ==>
                capacity == old(capacity) && copied == old(copied)
      ensures old(size) + additional > old(capacity) ==>
                && capacity == Doubled(if old(capacity) == 0 then 1 else old(capacity), size + additional)
                && capacity < 2 * (size + additional) && copied == old(copied) + size
    {
      var req := size + additional;
      if capacity < req {
        var cap := capacity;
        if cap == 0 { cap := 1; }
        while cap < req
          invariant cap > 0 && (cap < 2 * req)
          invariant Doubled(if capacity == 0 then 1 else capacity, req) == Doubled(cap, req)
        {
          cap := cap * 2;
        }
        ghost var was := items[..capacity];
        Reallocate(cap);
        assert items[..size] == was[..size];
      }
    }

    /** `memmove` of the items from index `from` on to index `to`. */
    method MoveTail(from: nat, to: nat)
      requires Valid() && from <= size && to + (size - from) <= capacity
      modifies items
      ensures items[..] == Moved(old(items[..]), from, size, to)
    {
      forall i | 0 <= i < size - from {
        items[to + i] := items[from + i];
      }
    }

    /** Replaces the items from `index` on by `values`. */
    method SetMany(index: nat, values: seq<T>)
      requires Valid() && index + |values| <= size
      modifies items
      ensures Valid()
      ensures Contents() == old(Contents()[..index]) + values + old(Contents()[index + |values|..])
    {
      ghost var was := Contents();
      forall i | 0 <= i < |values| {
        items[index + i] := values[i];
      }
      ghost var now := items[..size];
      forall i | 0 <= i < size
        ensures now[i] == (was[..index] + values + was[index + |values|..])[i]
      {
        assert now[i] == items[i];
        if index <= i < index + |values| {
          assert items[index + (i - index)] == values[i - index];
        }
      }
      assert now == was[..index] + values + was[index + |values|..];
    }

    /** Opens a gap of `n` uninitialised items at `index` within the capacity. */
    method OpenGap(index: nat, n: nat)
      requires Valid() && index <= size && size + n <= capacity
      modifies this`size, items
      ensures Valid() && size == old(size) + n
      ensures Contents()[..index] == old(Contents()[..index])
      ensures Contents()[index + n..] == old(Contents()[index..])
    {
      ghost var region := items[..];
      assert region[..size][..index] == region[..index];
      assert region[..size][index..] == region[index..size];
      if index < size {
        MoveTail(index, index + n);
        MovedKeepsPrefix(region, index, size, index + n);
      }
      size := size + n;
      assert Contents()[..index] == items[..][..index];
      assert Contents()[index + n..] == items[..][index + n..size];
    }

    /** Makes room for `n` items at `index` and, when given some, stores them there. */
    method InsertMany(index: nat, values: Option<seq<T>>, n: nat)
      requires Valid() && index <= size
      requires values.Some? ==> |values.value| == n
      modifies this, items
      ensures Valid() && (items == old(items) || fresh(items))
      ensures size == old(size) + n
      ensures Contents()[..index] == old(Contents()[..index])
      ensures Contents()[index + n..] == old(Contents()[index..])
      ensures values.Some? ==> Contents()[index..index + n] == values.value
      ensures n == 1 && old(GrownByAdding()) ==> GrownByAdding()
    {
      Grow(n);
      OpenGap(index, n);
      if values.Some? {
        SetMany(index, values.value);
      }
    }

    method Insert(index: nat, item: T)
      requires Valid() && index <= size
      modifies this, items
      ensures Valid() && (items == old(items) || fresh(items))
      ensures Contents() == old(Contents()[..index]) + [item] + old(Contents()[index..])
      ensures old(GrownByAdding()) ==> GrownByAdding()
    {
      InsertMany(index, Some([item]), 1);
      var c: seq<T> := items[..size];
      assert c == c[..index] + c[index..index + 1] + c[index + 1..];
    }

    method Add(item: T)
      requires Valid()
      modifies this, items
      ensures Valid() && (items == old(items) || fresh(items))
      ensures Contents() == old(Contents()) + [item]
      ensures old(GrownByAdding()) ==> GrownByAdding()
    {
      ghost var was := Contents();
      Insert(size, item);
      assert was[..|was|] + [item] + was[|was|..] == was + [item];
    }

    method AddMany(values: seq<T>)
      requires Valid()
      modifies this, items
      ensures Valid() && (items == old(items) || fresh(items))
      ensures Contents() == old(Contents()) + values
    {
      ghost var was := Contents();
      InsertMany(size, Some(values), |values|);
      assert Contents() == Contents()[..|was|] + Contents()[|was|..|was| + |values|];
    }

    function Get(index: nat): (x: T)
      requires Valid() && index < size
      reads this, items
      ensures x == Contents()[index]
    {
      items[index]
    }

    method Set(index: nat, item: T)
      requires Valid() && index < size
      modifies items
      ensures Valid() && Contents() == old(Contents())[index := item]
    {
      items[index] := item;
    }

    /** Erases the items in [first, last). */
    method EraseRange(first: nat, last: nat)
      requires Valid() && first <= last <= size
      modifies this, items
      ensures Valid() && items == old(items)
      ensures Contents() == old(Contents()[..first]) + old(Contents()[last..])
    {
      ghost var region := items[..];
      assert region[..size][..first] == region[..first];
      assert region[..size][last..] == region[last..size];
      if last < size {
        MoveTail(last, first);
        MovedKeepsPrefix(region, last, size, first);
      }
      size := size - (last - first);
      assert Contents() == items[..][..first] + items[..][first..size];
    }

    method Erase(index: nat)
      requires Valid() && index < size
      modifies this, items
      ensures Valid() && items == old(items)
      ensures Contents() == old(Contents()[..index]) + old(Contents()[index + 1..])
    {
      EraseRange(index, index + 1);
    }

    /** Changes the number of items; new ones at the end are left uninitialised. */
    method Resize(n: nat)
      requires Valid()
      modifies this
      ensures Valid() && (items == old(items) || fresh(items))
      ensures size == n
      ensures n <= old(size) ==> Contents() == old(Contents()[..n]) && items == old(items)
      ensures old(size) <= n ==> Contents()[..old(size)] == old(Contents())
    {
      ghost var was := Contents();
      if n > capacity {
        ghost var all := items[..capacity];
        Reallocate(n);
        assert items[..|was|] == all[..|was|];
      }
      size := n;
      if n <= |was| {
        assert items[..n] == was[..n];
      }
      assert |was| <= n ==> Contents()[..|was|] == was;
    }

    method Shrink()
      requires Valid()
      modifies this
      ensures Valid() && (items == old(items) || fresh(items))
      ensures capacity == size && Contents() == old(Contents())
    {
      if size != capacity {
        Reallocate(size);
      }
    }

    method Remove()
      requires Valid() && size > 0
      modifies this
      ensures Valid() && items == old(items)
      ensures Contents() == old(Contents()[..size - 1])
    {
      size := size - 1;
    }

    method Clear()
      requires Valid()
      modifies this
      ensures Valid() && items == old(items) && Contents() == []
    {
      size := 0;
    }
  }

  /** Filling an empty array with n items moves fewer than 2n items in all. */
  method Fill<T(0)>(values: seq<T>) returns (a: Array<T>)
    ensures fresh(a) && a.Valid() && fresh(a.items) && a.Contents() == values
    ensures values != [] ==> a.copied < 2 * |values|
  {
    a := new Array<T>();
    for i := 0 to |values|
      invariant a.Valid() && fresh(a.items) && a.Contents() == values[..i]
      invariant a.GrownByAdding()
    {
      a.Add(values[i]);
      assert values[..i] + [values[i]] == values[..i + 1];
    }
    assert values[..|values|] == values;
  }

  // ------------------------------------------------------------- machine arithmetic

  /** The capacity after k doublings in 32-bit arithmetic. */
  function Doubling32(cap: nat, k: nat): (c: nat)
    ensures c < UINT_RANGE || k == 0
  {
    if k == 0 then cap else 2 * Doubling32(cap, k - 1) % UINT_RANGE
  }

  /** The machine loop stops at its k-th test. */
  ghost predicate StopsAt(cap: nat, req: nat, k: nat) {
    Doubling32(cap, k) >= req && forall j: nat :: j < k ==> Doubling32(cap, j) < req
  }

  lemma {:induction false} Doubling32Shift(cap: nat, k: nat)
    requires cap < UINT_RANGE
    ensures Doubling32(2 * cap % UINT_RANGE, k) == Doubling32(cap, k + 1)
  {
    if k > 0 {
      Doubling32Shift(cap, k - 1);
    }
  }

  lemma {:induction false} StopsOneLater(cap: nat, req: nat, k: nat)
    requires cap < req && 2 * cap < UINT_RANGE && StopsAt(2 * cap, req, k)
    ensures StopsAt(cap, req, k + 1) && Doubling32(cap, k + 1) == Doubling32(2 * cap, k)
  {
    assert 2 * cap % UINT_RANGE == 2 * cap;
    forall j: nat | j <= k + 1
      ensures j > 0 ==> Doubling32(cap, j) == Doubling32(2 * cap, j - 1)
    {
      if j > 0 {
        Doubling32Shift(cap, j - 1);
      }
    }
  }

  lemma {:induction false} DoubledGrows(cap: nat, req: nat)
    requires cap > 0
    ensures cap <= Doubled(cap, req)
    decreases req - cap
  {
    if cap < req {
      DoubledGrows(2 * cap, req);
    }
  }

  /** Where the unbounded result fits a word, the machine loop stops there. */
  lemma {:induction false} GrowWithoutWrap(cap: nat, req: nat) returns (k: nat)
    requires 0 < cap && Doubled(cap, req) < UINT_RANGE
    ensures StopsAt(cap, req, k) && Doubling32(cap, k) == Doubled(cap, req)
    decreases req - cap
  {
    if req <= cap {
      k := 0;
    } else {
      DoubledGrows(2 * cap, req);
      k := GrowWithoutWrap(2 * cap, req);
      StopsOneLater(cap, req, k);
      k := k + 1;
    }
  }

  /** Any request for at most 2^31 items is of this kind. */
  lemma {:induction false} SmallRequestFits(cap: nat, req: nat)
    requires 0 < cap < UINT_RANGE && req <= 0x8000_0000
    ensures Doubled(cap, req) < UINT_RANGE
    decreases req - cap
  {
    if cap < req {
      SmallRequestFits(2 * cap, req);
    }
  }

  /** The machine loop stops with the capacity c. */
  ghost predicate LoopLeaves(cap: nat, req: nat, c: nat) {
    exists k :: StopsAt(cap, req, k) && c == Doubling32(cap, k)
  }

  /** The machine loop reserves what the unbounded one does exactly when that fits a word. */
  lemma {:induction false} GrowsRightIff(cap: nat, req: nat)
    requires 0 < cap < UINT_RANGE
    ensures LoopLeaves(cap, req, Doubled(cap, req)) <==> Doubled(cap, req) < UINT_RANGE
  {
    if Doubled(cap, req) < UINT_RANGE {
      var k := GrowWithoutWrap(cap, req);
    }
  }

  /** After k doublings the last k bits are 0. */
  lemma {:induction false} DoublingIsMultiple(cap: nat, k: nat) returns (m: int)
    requires k <= 32
    ensures Doubling32(cap, k) == Pow2(k) * m
  {
    if k == 0 {
      m := cap;
    } else {
      var n := DoublingIsMultiple(cap, k - 1);
      var q := 2 * Doubling32(cap, k - 1) / UINT_RANGE;
      WidthOfWord();
      Pow2Add(k, 32 - k);
      m := n - Pow2(32 - k) * q;
      WrappedMultiple(Pow2(k - 1), n, Pow2(32 - k), q);
    }
  }

  lemma {:induction false} WrappedMultiple(p: int, n: int, r: int, q: int)
    ensures 2 * (p * n) - (2 * p * r) * q == (2 * p) * (n - r * q)
  {
  }

  /** After 32 doublings nothing is left, whatever the capacity was. */
  lemma {:induction false} DoublingEnds(cap: nat, k: nat)
    requires k >= 32
    ensures Doubling32(cap, k) == 0
  {
    if k == 32 {
      var m := DoublingIsMultiple(cap, 32);
      WidthOfWord();
    } else {
      DoublingEnds(cap, k - 1);
    }
  }

  lemma {:induction false} FirstStop(cap: nat, req: nat, j: nat) returns (k: nat)
    requires Doubling32(cap, j) >= req
    ensures k <= j && StopsAt(cap, req, k)
  {
    if i: nat :| i < j && Doubling32(cap, i) >= req {
      k := FirstStop(cap, req, i);
    } else {
      k := j;
    }
  }

  /** From any capacity the machine loop stops if and only if one of its first 32 values is
      large enough; otherwise the capacity becomes 0 and stays so. */
  lemma {:induction false} GrowStopsIff(cap: nat, req: nat)
    requires 0 < cap < UINT_RANGE
    ensures (exists k :: StopsAt(cap, req, k)) <==> exists j: nat :: j < 32 && Doubling32(cap, j) >= req
  {
    if k :| StopsAt(cap, req, k) {
      if k >= 32 {
        DoublingEnds(cap, k);
      }
    }
    if j: nat :| j < 32 && Doubling32(cap, j) >= req {
      var k := FirstStop(cap, req, j);
    }
  }

  /** From 1, the machine doubles through the powers of two. */
  lemma {:induction false} DoublingOne(k: nat)
    requires k < 32
    ensures Doubling32(1, k) == Pow2(k) <= 0x8000_0000
  {
    PowersInWord(k);
    if k > 0 {
      DoublingOne(k - 1);
      PowersInWord(k - 1);
      hide Doubling32;
      DoublingAgain(1, k, Pow2(k - 1));
    }
  }

  lemma {:induction false} PowersInWord(k: nat)
    requires k < 32
    ensures Pow2(k) <= 0x8000_0000 && (k > 0 ==> Pow2(k) == 2 * Pow2(k - 1))
  {
    WidthOfWord();
    assert Pow2(32) == 2 * Pow2(31);
    hide Pow2;
    Pow2Monotone(k, 31);
  }

  lemma {:induction false} DoublingAgain(cap: nat, k: nat, c: nat)
    requires k > 0 && Doubling32(cap, k - 1) == c && 2 * c < UINT_RANGE
    ensures Doubling32(cap, k) == 2 * c
  {
  }

  /** So an array grown from empty makes the loop stop exactly up to 2^31 items. */
  lemma {:induction false} GrowFromEmptyStopsIff(req: nat)
    requires req < UINT_RANGE
    ensures (exists k :: StopsAt(1, req, k)) <==> req <= 0x8000_0000
  {
    GrowStopsIff(1, req);
    if req <= 0x8000_0000 {
      SmallRequestFits(1, req);
      var k := GrowWithoutWrap(1, req);
    }
    if j: nat :| j < 32 && Doubling32(1, j) >= req {
      DoublingOne(j);
    }
  }

  /** But from a capacity of 3, which shrinking leaves behind, it stops for more. */
  lemma {:induction false} GrowFromThree()
    ensures StopsAt(3, 0xC000_0000, 30)
  {
    forall j: nat | j <= 30
      ensures Doubling32(3, j) == 3 * Pow2(j)
    {
      DoublingThree(j);
    }
    Pow2Monotone(29, 30);
    WidthOfWord();
    forall j: nat | j < 30
      ensures Pow2(j) <= Pow2(29)
    {
      Pow2Monotone(j, 29);
    }
  }

  lemma {:induction false} DoublingThree(k: nat)
    requires k <= 30
    ensures Doubling32(3, k) == 3 * Pow2(k)
  {
    WidthOfWord();
    Pow2Monotone(k, 30);
    if k > 0 {
      DoublingThree(k - 1);
    }
  }

  /** What `array_grow` leaves as the capacity c of an array of `size` items, in 32-bit
      arithmetic throughout. */
  ghost predicate GrowsTo32(size: Word, cap: Word, additional: Word, c: nat) {
    var req := (size + additional) % UINT_RANGE;
    if req <= cap then c == cap else LoopLeaves(if cap == 0 then 1 else cap, req, c)
  }

  /** There is room for the additional items exactly when the sum of the sizes does not wrap;
      when it does, nothing is reserved at all. */
  lemma {:induction false} RoomIffNoWrap(size: Word, cap: Word, additional: Word, c: nat)
    requires size <= cap && GrowsTo32(size, cap, additional, c)
    ensures size + additional <= c <==> size + additional < UINT_RANGE
    ensures size + additional >= UINT_RANGE ==> c == cap
  {
  }
}
