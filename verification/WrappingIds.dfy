/** Sequence ids are `u16` and wrap. A run is described with unbounded ids; `Wire` is what travels. */
module WrappingIds {

  type u16 = x: int | 0 <= x < 65536

  const U16_MAX: u16 := 65535

  /** The sequence id that stands for the unbounded id `id`; id -1 stands for "nothing yet". */
  function Wire(id: int): u16 {
    id % 65536
  }

  function WrappingAdd(x: u16, y: u16): u16 {
    if x + y < 65536 then x + y else x + y - 65536
  }

  function WrappingSub(x: u16, y: u16): u16 {
    if y <= x then x - y else x - y + 65536
  }

  /** The unbounded id at or below `newest` that `k` stands for, if it is less than 65536 back. */
  function IdBelow(newest: int, k: u16): (id: int)
    ensures Wire(id) == k && newest - 65536 < id <= newest
    ensures forall other :: Wire(other) == k && newest - 65536 < other <= newest ==> other == id
  {
    newest - WrappingSub(Wire(newest), k)
  }

  /** `count` times `wrapping_add(1)`. */
  function Advance(id: u16, count: nat): u16
    decreases count
  {
    if count == 0 then id else Advance(WrappingAdd(id, 1), count - 1)
  }

  lemma {:induction false} AdvanceIsWire(id: u16, count: nat)
    ensures Advance(id, count) == Wire(id + count)
    decreases count
  {
    if count > 0 {
      AdvanceIsWire(WrappingAdd(id, 1), count - 1);
    }
  }

  /** Comparison of sequence ids that takes a wrap into account if it is at most `maxDif` away. */
  predicate WrappingGt(x: u16, y: u16, maxDif: u16) {
    if U16_MAX - x < maxDif && y <= x && U16_MAX - x + y < maxDif then false
    else if U16_MAX - y < maxDif && x <= y && U16_MAX - y + x < maxDif then true
    else x > y
  }

  /** The half-open circular range `start..end`. */
  function WrappingRange(start: u16, end: u16): (r: seq<u16>)
    ensures |r| == WrappingSub(end, start)
    ensures forall i :: 0 <= i < |r| ==> r[i] == WrappingAdd(start, i)
  {
    seq<u16>(WrappingSub(end, start), i requires 0 <= i < 65536 => WrappingAdd(start, i))
  }

  /** The range holds exactly the ids from `start` on that come before `end`. */
  lemma WrappingRangeMembers(start: u16, end: u16, k: u16)
    ensures k in WrappingRange(start, end) <==> WrappingSub(k, start) < WrappingSub(end, start)
  {
    var r := WrappingRange(start, end);
    var d: int := WrappingSub(k, start);
    if d < |r| {
      assert r[d] == k;
    }
    if k in r {
      var i :| 0 <= i < |r| && r[i] == k;
    }
  }

  /** On ids at most `maxDif` apart the comparison is the true order, across any number of wraps. */
  lemma GtComparesIds(a: int, b: int, maxDif: u16)
    requires maxDif <= 32767
    requires a - b <= maxDif && b - a <= maxDif
    ensures WrappingGt(Wire(a), Wire(b), maxDif) <==> a > b
  {
    var x: int, y: int := Wire(a), Wire(b);
    assert x - y == a - b || x - y == a - b + 65536 || x - y == a - b - 65536 by {
      assert a == 65536 * (a / 65536) + x && b == 65536 * (b / 65536) + y;
    }
  }

  /** Circular form: within distance `maxDif`, "greater" means 1 to `maxDif` ahead on the circle. */
  lemma GtIsCircular(x: u16, y: u16, maxDif: u16)
    requires maxDif <= 32767
    requires WrappingSub(x, y) <= maxDif || WrappingSub(y, x) <= maxDif
    ensures WrappingGt(x, y, maxDif) <==> 0 < WrappingSub(x, y) <= maxDif
  {
  }

  /** For different ids exactly one of the two is the greater, whatever `maxDif` is. */
  lemma GtIsAntisymmetric(x: u16, y: u16, maxDif: u16)
    requires x != y
    ensures WrappingGt(x, y, maxDif) <==> !WrappingGt(y, x, maxDif)
  {
  }

  /**
   * How far ahead an id is recognised as newer wherever the wrap falls: exactly the distances
   * `0 < k <= maxDif` that also stay more than `maxDif` short of a full turn.
   */
  lemma GtHoldsEverywhereIff(k: u16, maxDif: u16)
    ensures (forall y: u16 :: WrappingGt(WrappingAdd(y, k), y, maxDif)) <==> 0 < k <= maxDif && k + maxDif < 65536
  {
    if forall y: u16 :: WrappingGt(WrappingAdd(y, k), y, maxDif) {
      assert WrappingGt(WrappingAdd(0, k), 0, maxDif);
      assert WrappingGt(WrappingAdd(U16_MAX, k), U16_MAX, maxDif);
    }
  }
}
