/** The ring buffer: an array of slots, each id in the slot of its residue. */
module RingBuffers {
  import opened Options
  import opened WrappingIds
  import opened Windows
  import opened RingSlots

  class RingBuffer<T> {
    const items: array<Option<T>>
    var newest: u16

    ghost predicate Valid() {
      Size(items.Length)
    }

    /** The map the ring stands for. */
    ghost function View(): (w: Window<T>)
      requires Valid()
      reads this, items
      ensures w.Valid()
    {
      ViewOf(newest, items[..])
    }

    constructor (n: nat)
      requires Size(n)
      ensures Valid() && fresh(items)
      ensures View() == Empty(n)
    {
      newest := U16_MAX;
      items := new Option<T>[n](_ => None);
      new;
      assert View().entries == map[];
    }

    function Get(k: u16): (r: Option<T>)
      requires Valid()
      reads this, items
      ensures r == View().Get(k)
    {
      if WrappingSub(newest, k) < items.Length then items[k % items.Length] else None
    }

    function Newest(): u16
      reads this
    {
      newest
    }

    function Next(): u16
      reads this
    {
      WrappingAdd(newest, 1)
    }

    function PushWillOverride(): (r: bool)
      requires Valid()
      reads this, items
      ensures r <==> View().PushWillOverride()
    {
      NextSlot(newest, items[..]);
      items[Next() % items.Length].Some?
    }

    method Push(item: T) returns (k: u16)
      requires Valid()
      modifies this, items
      ensures k == old(View()).Next()
      ensures View() == old(View()).Push(item)
    {
      PushSlot(newest, items[..], item);
      newest := WrappingAdd(newest, 1);
      k := newest;
      items[k % items.Length] := Some(item);
    }

    method Take(k: u16) returns (r: Option<T>)
      requires Valid()
      modifies items
      ensures r == old(View()).Get(k)
      ensures View() == old(View()).Take(k)
    {
      if WrappingSub(newest, k) < items.Length {
        r := items[k % items.Length];
        WriteSlot(newest, items[..], k, None);
        items[k % items.Length] := None;
      } else {
        r := None;
      }
    }

    method Insert(index: u16, item: T)
      requires Valid()
      modifies this, items
      ensures View() == old(View()).Insert(index, item)
    {
      hide ViewOf;
      var n := items.Length;
      InsertGuards(n, newest, index);
      if WrappingGt(WrappingSub(newest, n - 1), index, n * 2)
         || WrappingGt(index, WrappingAdd(newest, n - 1), n * 2)
      {
        ghost var was := items[..];
        for i := 0 to n
          invariant newest == old(newest)
          invariant forall j :: 0 <= j < i ==> items[j] == None
        {
          items[i] := None;
        }
        NukeSlots(newest, was, items[..], index, item);
        newest := index;
        items[index % n] := Some(item);
      } else if WrappingGt(WrappingAdd(newest, 1), index, n) && WrappingGt(index, WrappingSub(newest, n), n) {
        WriteSlot(newest, items[..], index, Some(item));
        items[index % n] := Some(item);
      } else {
        ghost var was := items[..];
        Purge(index);
        AdvanceSlots(newest, was, items[..], index, item);
        newest := index;
        items[index % n] := Some(item);
      }
    }

    /** Empty the slots of the ids that fall out of the window once `index` is the newest. */
    method Purge(index: u16)
      requires Valid()
      requires 0 < WrappingSub(index, newest) < items.Length
      modifies items
      ensures var was := old(View());
        View() == was.(entries := map k | k in was.entries && WrappingSub(index, k) < was.n :: was.entries[k])
    {
      var n := items.Length;
      var purged := WrappingRange(WrappingSub(newest, n - 1), WrappingSub(index, n - 1));
      ghost var was := View();
      for t := 0 to |purged|
        invariant View() == was.(entries := map k | k in was.entries && k !in purged[..t] :: was.entries[k])
      {
        var _ := Take(purged[t]);
        assert purged[..t + 1] == purged[..t] + [purged[t]];
      }
      assert purged[..|purged|] == purged;
      forall k | k in was.entries
        ensures k in purged <==> WrappingSub(index, k) >= n
      {
        WrappingRangeMembers(WrappingSub(newest, n - 1), WrappingSub(index, n - 1), k);
      }
    }

    /** Access to an existing item for update in place. */
    method Update(k: u16, item: T)
      requires Valid() && k in View().entries
      modifies items
      ensures View() == old(View()).Update(k, item)
    {
      WriteSlot(newest, items[..], k, Some(item));
      items[k % items.Length] := Some(item);
      assert View().entries.Keys == old(View()).entries.Keys;
    }

    /** The body of `Retain`'s loop. */
    method RetainOne<O>(f: (u16, T) -> Kept<T, O>, index: u16) returns (output: seq<O>)
      requires Valid()
      modifies items
      ensures View() == old(View()).RetainAt(f, index)
      ensures output == old(View()).OutputAt(f, index)
    {
      var n := items.Length;
      output := [];
      if WrappingSub(newest, index) < n && items[index % n].Some? {
        var kept := f(index, items[index % n].value);
        output := kept.output;
        WriteSlot(newest, items[..], index, if kept.keep then Some(kept.item) else None);
        items[index % n] := if kept.keep then Some(kept.item) else None;
      }
    }

    method Retain<O>(f: (u16, T) -> Kept<T, O>) returns (output: seq<O>)
      requires Valid()
      modifies items
      ensures View() == old(View()).Retain(f)
      ensures output == old(View()).Output(f, items.Length)
    {
      hide Window.Retain, Window.Output, Window.RetainAt, Window.OutputAt, WrappingRange;
      var n := items.Length;
      output := [];
      var range := WrappingRange(WrappingSub(newest, n - 1), WrappingAdd(newest, 1));
      ghost var all := View().RetainEach(f, n);
      assert all == (View().Retain(f), View().Output(f, n)) by { View().RetainEachIsRetain(f); }
      for t := 0 to |range|
        invariant View().RetainEach(f, n - t).0 == all.0
        invariant output + View().RetainEach(f, n - t).1 == all.1
      {
        var k := range[t];
        assert k == WrappingSub(newest, n - t - 1);
        ghost var was, before := View(), output;
        var emitted := RetainOne(f, k);
        output := output + emitted;
        assert View().RetainEach(f, n - t - 1).0 == all.0 && output + View().RetainEach(f, n - t - 1).1 == all.1 by {
          was.RetainEachStep(f, n - t, before);
        }
      }
    }

    function Len(): (r: nat)
      requires Valid()
      reads this, items
      ensures r == |View().entries| == |View().KeysFrom(items.Length)|
    {
      CountIsSize(newest, items[..]);
      View().EntryCount();
      CountSome(items[..])
    }

    predicate IsEmpty()
      requires Valid()
      reads this, items
      ensures IsEmpty() <==> View().entries == map[]
    {
      Len() == 0
    }
  }

  /** The iterators over a ring share this position; they differ only in what they hand out. */
  class RingIter<T> {
    const ring: RingBuffer<T>
    var i: u16

    ghost predicate Valid()
      reads this, ring
    {
      ring.Valid() && Left() <= ring.items.Length
    }

    ghost function Left(): nat
      reads this, ring
    {
      WrappingSub(ring.Next(), i)
    }

    /** The ids still to be visited, in order. */
    ghost function Remaining(): seq<u16>
      requires Valid()
      reads this, ring, ring.items
    {
      ring.View().KeysFrom(Left())
    }

    constructor (ring: RingBuffer<T>)
      requires ring.Valid()
      ensures Valid() && this.ring == ring
      ensures Remaining() == ring.View().KeysFrom(ring.items.Length)
    {
      this.ring := ring;
      i := WrappingSub(ring.newest, ring.items.Length - 1);
    }

    method Next() returns (r: Option<(u16, T)>)
      requires Valid()
      modifies this
      ensures Valid()
      ensures old(Remaining()) == [] ==> r == None && Remaining() == []
      ensures old(Remaining()) != [] ==>
                && var k := old(Remaining())[0];
                && k in ring.View().entries
                && r == Some((k, ring.View().entries[k]))
                && Remaining() == old(Remaining())[1..]
    {
      var range := WrappingRange(i, ring.Next());
      for t := 0 to |range|
        invariant Left() == |range| - t
        invariant Remaining() == old(Remaining())
      {
        StepIterator(ring.newest, i);
        assert range[t] == i;
        i := WrappingAdd(i, 1);
        var item := ring.Get(range[t]);
        if item.Some? {
          return Some((range[t], item.value));
        }
      }
      return None;
    }

    /** Bounds on what is left: the true number of remaining items is always between the two. */
    function SizeHint(): (r: (nat, nat))
      requires Valid()
      reads this, ring, ring.items
      ensures r.0 <= |Remaining()| <= r.1
      ensures ring.items.Length == |ring.View().entries| ==> r.0 == |Remaining()| == r.1
      ensures r.1 - r.0 <= ring.items.Length - |ring.View().entries| && r.1 - r.0 <= ring.items.Length - Left()
    {
      var n, len := ring.items.Length, ring.Len();
      ring.View().RemainingBounds(Left());
      NeverPast(ring.newest, i, n);
      if len == 0 || WrappingGt(WrappingSub(i, 1), ring.newest, n) then (0, 0)
      else
        var unvisited := WrappingAdd(WrappingSub(ring.newest, i), 1);
        (SaturatingSub(len, SaturatingSub(n, unvisited)), if unvisited < len then unvisited else len)
    }
  }

  /** One step of an iterator at `i`, seen from the newest id. */
  lemma StepIterator(newest: u16, i: u16)
    requires i != WrappingAdd(newest, 1)
    ensures i == WrappingSub(newest, WrappingSub(WrappingAdd(newest, 1), i) - 1)
    ensures WrappingSub(WrappingAdd(newest, 1), WrappingAdd(i, 1)) == WrappingSub(WrappingAdd(newest, 1), i) - 1
  {
  }

  /** A position of an iterator is never beyond the newest id. */
  lemma NeverPast(newest: u16, i: u16, n: nat)
    requires Size(n) && WrappingSub(WrappingAdd(newest, 1), i) <= n
    ensures !WrappingGt(WrappingSub(i, 1), newest, n)
    ensures WrappingAdd(WrappingSub(newest, i), 1) == WrappingSub(WrappingAdd(newest, 1), i)
  {
  }

  function SaturatingSub(x: nat, y: nat): nat {
    if x < y then 0 else x - y
  }
}
