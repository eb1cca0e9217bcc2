/**
 * The plain map a ring buffer stands for: the items of the last `n` sequence ids.
 * Every operation says which ids are in the map afterwards, and nothing about slots.
 */
module Windows {
  import opened Options
  import opened WrappingIds

  datatype Window<T> = Window(n: u16, newest: u16, entries: map<u16, T>) {

    /** `n` divides 65536, so an id and its wire form agree on the slot they belong to. */
    ghost predicate Valid() {
      && 1 <= n <= 8192
      && 65536 % n == 0
      && forall k :: k in entries ==> Covers(k)
    }

    predicate Covers(k: u16) {
      WrappingSub(newest, k) < n
    }

    function Get(k: u16): Option<T> {
      if k in entries then Some(entries[k]) else None
    }

    function Take(k: u16): Window<T> {
      this.(entries := entries - {k})
    }

    /** Restrict to the last `n` ids, counted from the newer of `newest` and `k`, and add `k`. */
    function Insert(k: u16, item: T): Window<T> {
      var top := if Covers(k) then newest else k;
      Window(n, top, (map j | j in entries && WrappingSub(top, j) < n :: entries[j])[k := item])
    }

    /** Shift by one id and add. */
    function Push(item: T): Window<T> {
      Insert(Next(), item)
    }

    lemma InsertIsValid(k: u16, item: T)
      requires Valid()
      ensures Insert(k, item).Valid()
    {
    }

    /** A push over a free slot keeps all entries and adds one. */
    lemma PushAdds(item: T)
      requires Valid() && !PushWillOverride()
      ensures Push(item).Valid()
      ensures Next() !in entries
      ensures Push(item) == Window(n, Next(), entries[Next() := item])
      ensures |Push(item).entries| == |entries| + 1
    {
      forall j | j in entries ensures WrappingSub(Next(), j) < n && j != Next() {
        assert j != WrappingSub(Next(), n);
        NextDistance(j);
      }
      assert !Covers(Next());
      assert Push(item).entries == entries[Next() := item];
      assert entries[Next() := item].Keys == entries.Keys + {Next()};
      assert |entries| == |entries.Keys|;
    }

    lemma NextDistance(j: u16)
      requires 1 <= n <= 8192 && Covers(j) && j != WrappingSub(Next(), n)
      ensures WrappingSub(Next(), j) < n && j != Next()
    {
    }

    function Next(): u16 {
      WrappingAdd(newest, 1)
    }

    /** The id that the next push shifts out is still in use. */
    predicate PushWillOverride() {
      WrappingSub(Next(), n) in entries
    }

    /** Keep the entries `f` keeps, with the value `f` leaves in them. */
    function Retain<O>(f: (u16, T) -> Kept<T, O>): Window<T> {
      this.(entries := map k | k in entries && f(k, entries[k]).keep :: f(k, entries[k]).item)
    }

    /** What `retain` does to the one id `k`. */
    function RetainAt<O>(f: (u16, T) -> Kept<T, O>, k: u16): Window<T> {
      if k !in entries then this
      else if f(k, entries[k]).keep then Insert(k, f(k, entries[k]).item)
      else Take(k)
    }

    /** The same id by id over the newest `c` ids, oldest first, with what is emitted. */
    function RetainEach<O>(f: (u16, T) -> Kept<T, O>, c: nat): (r: (Window<T>, seq<O>))
      requires c <= 65536
      decreases c
    {
      if c == 0 then (this, []) else
      var k := WrappingSub(newest, c - 1);
      var rest := RetainAt(f, k).RetainEach(f, c - 1);
      (rest.0, OutputAt(f, k) + rest.1)
    }

    lemma RetainEachStep<O>(f: (u16, T) -> Kept<T, O>, c: nat, before: seq<O>)
      requires 0 < c <= 65536
      ensures
        var k := WrappingSub(newest, c - 1);
        && RetainEach(f, c).0 == RetainAt(f, k).RetainEach(f, c - 1).0
        && before + RetainEach(f, c).1 == (before + OutputAt(f, k)) + RetainAt(f, k).RetainEach(f, c - 1).1
    {
    }

    /** A `retain` that has reached all but the newest `c` ids. */
    ghost function RetainUpTo<O>(f: (u16, T) -> Kept<T, O>, c: nat): Window<T> {
      this.(entries := map k | k in entries && (WrappingSub(newest, k) >= c ==> f(k, entries[k]).keep) ::
                         if WrappingSub(newest, k) >= c then f(k, entries[k]).item else entries[k])
    }

    lemma RetainOneMore<O>(f: (u16, T) -> Kept<T, O>, c: nat)
      requires Valid() && 0 < c <= n
      ensures RetainUpTo(f, c).RetainAt(f, WrappingSub(newest, c - 1)) == RetainUpTo(f, c - 1)
      ensures RetainUpTo(f, c).OutputAt(f, WrappingSub(newest, c - 1)) == OutputAt(f, WrappingSub(newest, c - 1))
    {
      assert forall j :: j in entries ==> (WrappingSub(newest, j) == c - 1 <==> j == WrappingSub(newest, c - 1));
    }

    lemma {:induction false} RetainEachFrom<O>(f: (u16, T) -> Kept<T, O>, c: nat)
      requires Valid() && c <= n
      ensures RetainUpTo(f, c).RetainEach(f, c) == (Retain(f), Output(f, c))
    {
      if c > 0 {
        RetainOneMore(f, c);
        RetainEachFrom(f, c - 1);
      } else {
        assert RetainUpTo(f, 0) == Retain(f);
      }
    }

    /** Going through the ids one by one is the simultaneous filter, and emits in order. */
    lemma RetainEachIsRetain<O>(f: (u16, T) -> Kept<T, O>)
      requires Valid()
      ensures RetainEach(f, n) == (Retain(f), Output(f, n))
    {
      RetainEachFrom(f, n);
      assert RetainUpTo(f, n) == this;
    }

    function Update(k: u16, item: T): Window<T>
      requires k in entries
    {
      this.(entries := entries[k := item])
    }

    /** What a `retain` with `f` emits for the newest `c` ids, oldest first. */
    function Output<O>(f: (u16, T) -> Kept<T, O>, c: nat): seq<O>
      requires c <= 65536
    {
      if c == 0 then [] else
      OutputAt(f, WrappingSub(newest, c - 1)) + Output(f, c - 1)
    }

    function OutputAt<O>(f: (u16, T) -> Kept<T, O>, k: u16): seq<O> {
      if k in entries then f(k, entries[k]).output else []
    }

    /** The ids in use among the newest `c`, oldest first. */
    function KeysFrom(c: nat): (keys: seq<u16>)
      requires c <= 65536
    {
      if c == 0 then [] else
      var k := WrappingSub(newest, c - 1);
      (if k in entries then [k] else []) + KeysFrom(c - 1)
    }

    /** One position of an iteration. */
    lemma KeysStep(c: nat)
      requires 0 < c <= 65536
      ensures var k := WrappingSub(newest, c - 1);
        if k in entries then KeysFrom(c) != [] && KeysFrom(c)[0] == k && KeysFrom(c)[1..] == KeysFrom(c - 1)
        else KeysFrom(c) == KeysFrom(c - 1)
    {
    }

    /** Iteration only looks at which ids are in use. */
    lemma {:induction false} SameKeys(other: Window<T>, c: nat)
      requires other.newest == newest && other.entries.Keys == entries.Keys && c <= 65536
      ensures other.KeysFrom(c) == KeysFrom(c)
    {
      if c > 0 {
        SameKeys(other, c - 1);
      }
    }

    /** Iteration is chronological, also across the wrap, and reports every id in use exactly once. */
    lemma {:induction false} KeysAreChronological(c: nat)
      requires c <= 65536
      ensures forall k :: k in KeysFrom(c) <==> k in entries && WrappingSub(newest, k) < c
      ensures forall i, j :: 0 <= i < j < |KeysFrom(c)| ==>
                WrappingSub(newest, KeysFrom(c)[i]) > WrappingSub(newest, KeysFrom(c)[j])
      ensures |KeysFrom(c)| <= c
    {
      if c > 0 {
        KeysAreChronological(c - 1);
        var k, rest := WrappingSub(newest, c - 1), KeysFrom(c - 1);
        assert WrappingSub(newest, k) == c - 1;
        forall j | 0 <= j < |rest| ensures WrappingSub(newest, rest[j]) < c - 1 {
          assert rest[j] in rest;
        }
      }
    }

    /** The iteration over the whole window has as many items as the map. */
    lemma {:induction false} KeysCount(c: nat)
      requires c <= 65536
      ensures |KeysFrom(c)| == |set k | k in entries && WrappingSub(newest, k) < c|
    {
      var keys := set k | k in entries && WrappingSub(newest, k) < c;
      if c == 0 {
        assert keys == {};
      } else {
        KeysCount(c - 1);
        var k := WrappingSub(newest, c - 1);
        var fewer := set j | j in entries && WrappingSub(newest, j) < c - 1;
        assert k !in fewer;
        assert keys == if k in entries then fewer + {k} else fewer;
      }
    }

    /** At most one item per position is skipped, so the tail of an iteration has the rest. */
    lemma {:induction false} KeysTail(c: nat, n: nat)
      requires c <= n <= 65536
      ensures |KeysFrom(c)| <= |KeysFrom(n)| <= |KeysFrom(c)| + (n - c)
    {
      if c < n {
        KeysTail(c, n - 1);
      }
    }

    /** The bounds that `size_hint` reports with `c` positions still to visit. */
    lemma RemainingBounds(c: nat)
      requires Valid() && c <= n
      ensures |entries| - (n - c) <= |KeysFrom(c)| <= |entries|
      ensures |KeysFrom(c)| <= c
    {
      EntryCount();
      KeysTail(c, n);
      KeysTail(0, c);
    }

    lemma EntryCount()
      requires Valid()
      ensures |KeysFrom(n)| == |entries| <= n
    {
      KeysCount(n);
      KeysAreChronological(n);
      assert (set k | k in entries && WrappingSub(newest, k) < n) == entries.Keys;
      assert |entries| == |entries.Keys|;
    }
  }

  /** What a closure passed to `retain` decides and emits for one item. */
  datatype Kept<T, O> = Kept(keep: bool, item: T, output: seq<O>)

  function Empty<T>(n: u16): Window<T> {
    Window(n, U16_MAX, map[])
  }
}
