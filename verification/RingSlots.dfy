/** Slot arithmetic of a ring whose size divides 65536, and what writing one slot does to the view. */
module RingSlots {
  import opened Options
  import opened WrappingIds
  import opened Windows

  ghost predicate Size(n: int) {
    1 <= n <= 8192 && 65536 % n == 0
  }

  lemma MultipleBelow(n: int, t: int)
    requires -n < n * t < n
    ensures t == 0
  {
  }

  lemma RemainderIs(n: int, x: int, q: int, r: int)
    requires 0 <= r < n && x == n * q + r
    ensures x % n == r
  {
    assert n * (q - x / n) == x % n - r;
    MultipleBelow(n, q - x / n);
  }

  /** Because the size divides 65536, an id and its wire form share a slot. */
  lemma WireSlot(n: int, id: int)
    requires Size(n)
    ensures Wire(id) % n == id % n
  {
    var m, q, w: int := 65536 / n, id / 65536, Wire(id);
    assert 65536 == n * m;
    assert id == n * (m * q + w / n) + w % n by {
      assert n * (m * q) == 65536 * q;
      assert w == n * (w / n) + w % n;
    }
    RemainderIs(n, id, m * q + w / n, w % n);
  }

  /** The slot is shared by ids that are `n` apart. */
  lemma SlotPeriod(n: int, id: int)
    requires Size(n)
    ensures Wire(id - n) % n == Wire(id) % n
  {
    WireSlot(n, id);
    WireSlot(n, id - n);
    assert id - n == n * (id / n - 1) + id % n;
    RemainderIs(n, id - n, id / n - 1, id % n);
  }

  /** Within one window no two ids share a slot. */
  lemma SlotInjective(n: int, newest: u16, j: u16, k: u16)
    requires Size(n)
    requires WrappingSub(newest, j) < n && WrappingSub(newest, k) < n
    requires j % n == k % n
    ensures j == k
  {
    var a: int, b: int := newest - WrappingSub(newest, j), newest - WrappingSub(newest, k);
    assert Wire(a) == j && Wire(b) == k;
    WireSlot(n, a);
    WireSlot(n, b);
    assert a - b == n * (a / n - b / n);
    MultipleBelow(n, a / n - b / n);
  }

  /** The view of a ring: the ids of the window whose slot is filled. */
  ghost function ViewOf<T>(newest: u16, items: seq<Option<T>>): (w: Window<T>)
    requires Size(|items|)
    ensures w.Valid()
  {
    Window(|items|, newest,
      map k: u16 | 0 <= k < 65536 && WrappingSub(newest, k) < |items| && items[k % |items|].Some? ::
        items[k % |items|].value)
  }

  /** Writing or clearing the slot of an id in the window changes that entry and no other. */
  lemma WriteSlot<T>(newest: u16, items: seq<Option<T>>, k: u16, v: Option<T>)
    requires Size(|items|)
    requires WrappingSub(newest, k) < |items|
    ensures ViewOf(newest, items[k % |items| := v])
         == if v.Some? then ViewOf(newest, items).Insert(k, v.value) else ViewOf(newest, items).Take(k)
  {
    var before, after := ViewOf(newest, items), ViewOf(newest, items[k % |items| := v]);
    forall j: u16 | WrappingSub(newest, j) < |items| && j != k
      ensures j in after.entries <==> j in before.entries
      ensures j in after.entries ==> after.entries[j] == before.entries[j]
    {
      if j % |items| == k % |items| {
        SlotInjective(|items|, newest, j, k);
      }
    }
    assert after.entries.Keys == if v.Some? then before.entries.Keys + {k} else before.entries.Keys - {k};
  }

  /** Moving the newest id forward over empty slots keeps every entry that is left. */
  lemma ShiftWindow<T>(newest: u16, items: seq<Option<T>>, index: u16)
    requires Size(|items|)
    requires 0 < WrappingSub(index, newest) < |items|
    requires forall k :: k in ViewOf(newest, items).entries ==> WrappingSub(index, k) < |items|
    ensures ViewOf(index, items).entries == ViewOf(newest, items).entries
  {
    var n := |items|;
    var before, after := ViewOf(newest, items), ViewOf(index, items);
    forall k: u16 | WrappingSub(index, k) < n && k !in before.entries
      ensures k !in after.entries
    {
      if WrappingSub(newest, k) >= n {
        var prior := Wire(k - n);
        SlotPeriod(n, k);
        assert WrappingSub(newest, prior) < n && WrappingSub(index, prior) == WrappingSub(index, k) + n;
        assert prior !in before.entries;
      }
    }
    assert after.entries.Keys == before.entries.Keys;
  }

  /** A push first frees the slot it is about to use, then shifts, then writes. */
  lemma PushSlot<T>(newest: u16, items: seq<Option<T>>, v: T)
    requires Size(|items|)
    ensures var index := WrappingAdd(newest, 1);
            ViewOf(index, items[index % |items| := Some(v)]) == ViewOf(newest, items).Push(v)
  {
    var n, index := |items|, WrappingAdd(newest, 1);
    var freed := items[index % n := None];
    FreeSlot(newest, items);
    ShiftByOne(newest, freed);
    WriteSlot(index, freed, index, Some(v));
    assert freed[index % n := Some(v)] == items[index % n := Some(v)];
  }

  /** The slot that the next push uses is the one of the oldest id of the window. */
  lemma FreeSlot<T>(newest: u16, items: seq<Option<T>>)
    requires Size(|items|)
    ensures var index := WrappingAdd(newest, 1);
      ViewOf(newest, items[index % |items| := None]) == ViewOf(newest, items).Take(WrappingSub(index, |items|))
  {
    var n, index := |items|, WrappingAdd(newest, 1);
    SlotPeriod(n, index);
    WriteSlot(newest, items, Wire(index - n), None);
  }

  /** That slot is filled iff a push would override an entry. */
  lemma NextSlot<T>(newest: u16, items: seq<Option<T>>)
    requires Size(|items|)
    ensures items[WrappingAdd(newest, 1) % |items|].Some? <==> ViewOf(newest, items).PushWillOverride()
  {
    SlotPeriod(|items|, WrappingAdd(newest, 1));
  }

  /** A shift by one id over a slot that is already empty. */
  lemma ShiftByOne<T>(newest: u16, items: seq<Option<T>>)
    requires Size(|items|)
    requires WrappingSub(WrappingAdd(newest, 1), |items|) !in ViewOf(newest, items).entries
    ensures ViewOf(WrappingAdd(newest, 1), items).entries == ViewOf(newest, items).entries
  {
    if |items| == 1 {
      assert forall k: u16 :: k % 1 == 0;
      assert items[newest % 1] == None;
      assert ViewOf(newest, items).entries == map[];
      assert ViewOf(WrappingAdd(newest, 1), items).entries == map[];
    } else {
      ShiftWindow(newest, items, WrappingAdd(newest, 1));
    }
  }

  /** Once the ids that fall out of the new window are gone, moving there and writing is an insert. */
  lemma AdvanceSlots<T>(newest: u16, items: seq<Option<T>>, purged: seq<Option<T>>, index: u16, v: T)
    requires Size(|items|) && |purged| == |items|
    requires 0 < WrappingSub(index, newest) < |items|
    requires var was := ViewOf(newest, items);
      ViewOf(newest, purged)
      == was.(entries := map k | k in was.entries && WrappingSub(index, k) < was.n :: was.entries[k])
    ensures ViewOf(index, purged[index % |items| := Some(v)]) == ViewOf(newest, items).Insert(index, v)
  {
    ShiftWindow(newest, purged, index);
    WriteSlot(index, purged, index, Some(v));
  }

  /** After clearing everything only the written id is left, as for an id out of reach. */
  lemma NukeSlots<T>(newest: u16, items: seq<Option<T>>, cleared: seq<Option<T>>, index: u16, v: T)
    requires Size(|items|) && |cleared| == |items|
    requires forall i :: 0 <= i < |cleared| ==> cleared[i] == None
    requires |items| <= WrappingSub(index, newest) <= 65536 - |items|
    ensures ViewOf(index, cleared[index % |items| := Some(v)]) == ViewOf(newest, items).Insert(index, v)
  {
    assert ViewOf(index, cleared).entries == map[];
    WriteSlot(index, cleared, index, Some(v));
  }

  /**
   * The two guards of `insert`: everything is cleared iff the id is outside newest +- (n - 1),
   * and the newest id stays iff the id is one of the last n.
   */
  lemma InsertGuards(n: nat, newest: u16, index: u16)
    requires Size(n)
    ensures WrappingGt(WrappingSub(newest, n - 1), index, n * 2) || WrappingGt(index, WrappingAdd(newest, n - 1), n * 2)
       <==> n <= WrappingSub(index, newest) <= 65536 - n
    ensures WrappingSub(index, newest) < n || WrappingSub(index, newest) > 65536 - n ==>
              (WrappingGt(WrappingAdd(newest, 1), index, n) && WrappingGt(index, WrappingSub(newest, n), n)
               <==> WrappingSub(newest, index) < n)
  {
  }

  /** How many slots are filled. */
  function CountSome<T>(items: seq<Option<T>>): nat {
    if items == [] then 0
    else CountSome(items[..|items| - 1]) + (if items[|items| - 1].Some? then 1 else 0)
  }

  lemma {:induction false} CountIsFilled<T>(items: seq<Option<T>>)
    ensures CountSome(items) == |set i | 0 <= i < |items| && items[i].Some?|
  {
    var filled := set i | 0 <= i < |items| && items[i].Some?;
    if items == [] {
      assert filled == {};
    } else {
      var last := |items| - 1;
      CountIsFilled(items[..last]);
      var fewer := set i | 0 <= i < last && items[..last][i].Some?;
      assert filled == if items[last].Some? then fewer + {last} else fewer;
    }
  }

  lemma {:induction false} SlotsOf(n: int, newest: u16, keys: set<u16>)
    requires Size(n)
    requires forall k :: k in keys ==> WrappingSub(newest, k) < n
    ensures |set k | k in keys :: k % n| == |keys|
  {
    var slots := set k | k in keys :: k % n;
    if keys == {} {
      assert slots == {};
    } else {
      var k :| k in keys;
      var rest := keys - {k};
      SlotsOf(n, newest, rest);
      var others := set j | j in rest :: j % n;
      assert k % n !in others by {
        if k % n in others {
          var j :| j in rest && j % n == k % n;
          SlotInjective(n, newest, j, k);
        }
      }
      assert keys == rest + {k};
      assert slots == others + {k % n};
    }
  }

  /** Counting filled slots counts the entries of the view. */
  lemma CountIsSize<T>(newest: u16, items: seq<Option<T>>)
    requires Size(|items|)
    ensures CountSome(items) == |ViewOf(newest, items).entries|
  {
    var n, keys := |items|, ViewOf(newest, items).entries.Keys;
    var filled := set i | 0 <= i < n && items[i].Some?;
    CountIsFilled(items);
    SlotsOf(n, newest, keys);
    forall i | i in filled ensures i in set k | k in keys :: k % n {
      var k := SlotHolder(n, newest, i);
      assert k in keys;
    }
    assert filled == set k | k in keys :: k % n;
  }

  /** The id of the window that owns slot `i`. */
  lemma SlotHolder(n: int, newest: u16, i: nat) returns (k: u16)
    requires Size(n) && i < n
    ensures WrappingSub(newest, k) < n && k % n == i
  {
    var d := (newest - i) % n;
    k := Wire(newest - d);
    WireSlot(n, newest - d);
    assert newest - d == n * ((newest - i) / n) + i;
    RemainderIs(n, newest - d, (newest - i) / n, i);
  }
}
