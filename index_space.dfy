/**
 * The aligned N-dimensional index space the page allocator walks: row-major (mixed-radix)
 * linearisation of a cursor over the aligned extents, its inverse, and the device that
 * owns a position (the tile-index x stride dot product of storage_vm.hpp).
 * Axis 0 is the highest-order axis, axis |a| - 1 the lowest-order one.
 */
module IndexSpace {
  import opened Arith

  ghost predicate Positive(a: seq<int>)
  {
    forall d :: 0 <= d < |a| ==> a[d] > 0
  }

  /** Every coordinate lies inside its extent. */
  ghost predicate InRange(c: seq<int>, a: seq<int>)
  {
    |c| == |a| && forall d :: 0 <= d < |c| ==> 0 <= c[d] < a[d]
  }

  /**
   * The states the allocator's cursor can be in: every axis but the highest-order one is
   * strictly inside its extent, and the highest-order one may sit on its bound only once
   * every other axis has wrapped back to 0 (the exhausted cursor).
   */
  ghost predicate CursorOk(c: seq<int>, a: seq<int>)
  {
    |c| == |a| >= 1 &&
    (forall d :: 0 <= d < |c| ==> 0 <= c[d]) &&
    (forall d :: 1 <= d < |c| ==> c[d] < a[d]) &&
    c[0] <= a[0] &&
    (c[0] == a[0] ==> forall d :: 1 <= d < |c| ==> c[d] == 0)
  }

  /** Row-major position of cursor `c` in the space of extents `a`. */
  function Linear(c: seq<int>, a: seq<int>): int
    requires |c| == |a|
  {
    if |c| == 0 then 0
    else Linear(c[..|c| - 1], a[..|a| - 1]) * a[|a| - 1] + c[|c| - 1]
  }

  /** The cursor at row-major position `p`; the highest-order axis is not reduced. */
  function Unlinear(p: int, a: seq<int>): (c: seq<int>)
    requires |a| >= 1 && Positive(a)
    ensures |c| == |a|
    decreases |a|
  {
    if |a| == 1 then [p]
    else Unlinear(p / a[|a| - 1], a[..|a| - 1]) + [p % a[|a| - 1]]
  }

  lemma {:induction false} LinearNonNeg(c: seq<int>, a: seq<int>)
    requires |c| == |a| && Positive(a)
    requires forall d :: 0 <= d < |c| ==> c[d] >= 0
    ensures Linear(c, a) >= 0
  {
    if |c| > 0 {
      LinearNonNeg(c[..|c| - 1], a[..|a| - 1]);
      MulMono(0, Linear(c[..|c| - 1], a[..|a| - 1]), a[|a| - 1]);
    }
  }

  /**
   * A cursor's position never passes the product of the extents, and reaches it exactly
   * when the highest-order axis sits on its bound.
   */
  lemma {:induction false} CursorLinear(c: seq<int>, a: seq<int>)
    requires Positive(a) && CursorOk(c, a)
    ensures 0 <= Linear(c, a) <= Prod(a)
    ensures Linear(c, a) == Prod(a) <==> c[0] == a[0]
  {
    var n := |c|;
    if n == 1 {
      assert Linear(c, a) == Linear([], []) * a[0] + c[0];
      assert Prod(a) == Prod([]) * a[0];
    } else {
      var c', a' := c[..n - 1], a[..n - 1];
      assert CursorOk(c', a');
      CursorLinear(c', a');
      var l', p' := Linear(c', a'), Prod(a');
      assert Linear(c, a) == l' * a[n - 1] + c[n - 1];
      assert Prod(a) == p' * a[n - 1];
      MulMono(0, l', a[n - 1]);
      if c[0] == a[0] {
        assert c[n - 1] == 0;
      } else {
        MulMono(l', p' - 1, a[n - 1]);
        assert (p' - 1) * a[n - 1] == p' * a[n - 1] - a[n - 1];
      }
    }
  }

  lemma LinearInRange(c: seq<int>, a: seq<int>)
    requires |a| >= 1 && Positive(a) && InRange(c, a)
    ensures 0 <= Linear(c, a) < Prod(a)
  {
    CursorLinear(c, a);
  }

  /** Decoding the position of an in-range cursor gives the cursor back. */
  lemma {:induction false} UnlinearLinear(c: seq<int>, a: seq<int>)
    requires |a| >= 1 && Positive(a) && InRange(c, a)
    ensures Unlinear(Linear(c, a), a) == c
  {
    var n := |a|;
    if n == 1 {
      assert Linear(c, a) == Linear([], []) * a[0] + c[0];
    } else {
      var c', a' := c[..n - 1], a[..n - 1];
      var l' := Linear(c', a');
      DivModUnique(Linear(c, a), a[n - 1], l', c[n - 1]);
      UnlinearLinear(c', a');
      assert c == c' + [c[n - 1]];
    }
  }

  /** Every position below the product of the extents decodes to an in-range cursor that encodes back to it. */
  lemma {:induction false} LinearUnlinear(p: int, a: seq<int>)
    requires |a| >= 1 && Positive(a) && 0 <= p < Prod(a)
    ensures InRange(Unlinear(p, a), a)
    ensures Linear(Unlinear(p, a), a) == p
    decreases |a|
  {
    var n := |a|;
    if n == 1 {
      assert Prod(a) == Prod([]) * a[0];
      assert Linear([p], a) == Linear([], []) * a[0] + p;
    } else {
      var a', b := a[..n - 1], a[n - 1];
      var q, r := p / b, p % b;
      assert Prod(a) == Prod(a') * b;
      QuotientBound(p, b, Prod(a'));
      LinearUnlinear(q, a');
      var c', c := Unlinear(q, a'), Unlinear(p, a);
      assert c == c' + [r];
      assert c[..n - 1] == c';
      assert Linear(c, a) == Linear(c', a') * b + r;
    }
  }

  /** Dividing a position below P * b by b gives a quotient below P and a remainder below b. */
  lemma QuotientBound(p: int, b: int, P: int)
    requires b > 0 && 0 <= p < P * b
    ensures 0 <= p / b < P && 0 <= p % b < b && p == (p / b) * b + p % b
  {
    if p / b >= P {
      MulMono(P, p / b, b);
      assert false;
    }
  }

  /** Setting coordinate `e` to `v` moves the position by (v - c[e]) times the product of the lower-order extents. */
  lemma {:induction false} LinearUpdate(c: seq<int>, a: seq<int>, e: nat, v: int)
    requires |c| == |a| && e < |c|
    ensures Linear(c[e := v], a) == Linear(c, a) + (v - c[e]) * Prod(a[e + 1..])
  {
    var n := |c|;
    var c2 := c[e := v];
    if e == n - 1 {
      assert c2[..n - 1] == c[..n - 1];
      assert a[e + 1..] == [];
    } else {
      var c', a' := c[..n - 1], a[..n - 1];
      assert c2[..n - 1] == c'[e := v];
      LinearUpdate(c', a', e, v);
      assert a[e + 1..][..|a[e + 1..]| - 1] == a'[e + 1..];
      var p' := Prod(a'[e + 1..]);
      assert Prod(a[e + 1..]) == p' * a[n - 1];
      var l', k := Linear(c', a'), v - c[e];
      assert Linear(c2, a) == (l' + k * p') * a[n - 1] + c[n - 1];
      MulAddDistrib(l', k, p', a[n - 1]);
    }
  }

  lemma MulAddDistrib(l: int, k: int, p: int, a: int)
    ensures (l + k * p) * a == l * a + k * (p * a)
  {
    assert (l + k * p) * a == l * a + (k * p) * a;
    assert (k * p) * a == k * (p * a);
  }

  /** Shape of the tables the allocator is built from: extents, local tile extents and device strides. */
  ghost predicate Shape(a: seq<int>, local: seq<int>, strides: seq<int>)
  {
    |a| >= 1 && |local| == |a| && |strides| == |a| &&
    Positive(a) && Positive(local) &&
    forall d :: 0 <= d < |strides| ==> strides[d] >= 0
  }

  /** Device owning cursor `c`: the sum over d of (c[d] / local[d]) * strides[d]. */
  function Device(c: seq<int>, local: seq<int>, strides: seq<int>): int
    requires |c| == |local| == |strides| && Positive(local)
  {
    if |c| == 0 then 0
    else Device(c[..|c| - 1], local[..|c| - 1], strides[..|c| - 1])
         + (c[|c| - 1] / local[|c| - 1]) * strides[|c| - 1]
  }

  /** The last index on every axis. */
  function LastIndex(a: seq<int>): (m: seq<int>)
    ensures |m| == |a| && forall d :: 0 <= d < |a| ==> m[d] == a[d] - 1
  {
    seq(|a|, d requires 0 <= d < |a| => a[d] - 1)
  }

  /** The largest device number any in-range position can be charged to. */
  ghost function MaxDevice(a: seq<int>, local: seq<int>, strides: seq<int>): int
    requires Shape(a, local, strides)
  {
    Device(LastIndex(a), local, strides)
  }

  /** The device owning row-major position `p`. */
  ghost function DevAt(p: int, a: seq<int>, local: seq<int>, strides: seq<int>): int
    requires Shape(a, local, strides)
  {
    Device(Unlinear(p, a), local, strides)
  }

  /** The device number is monotone in every coordinate. */
  lemma {:induction false} DeviceMonotone(c: seq<int>, c2: seq<int>, local: seq<int>, strides: seq<int>)
    requires |c| == |c2| == |local| == |strides| && Positive(local)
    requires forall d :: 0 <= d < |strides| ==> strides[d] >= 0
    requires forall d :: 0 <= d < |c| ==> 0 <= c[d] <= c2[d]
    ensures 0 <= Device(c, local, strides) <= Device(c2, local, strides)
  {
    var n := |c|;
    if n > 0 {
      DeviceMonotone(c[..n - 1], c2[..n - 1], local[..n - 1], strides[..n - 1]);
      DivMono(0, c[n - 1], local[n - 1]);
      DivMono(c[n - 1], c2[n - 1], local[n - 1]);
      MulMono(0, c[n - 1] / local[n - 1], strides[n - 1]);
      MulMono(c[n - 1] / local[n - 1], c2[n - 1] / local[n - 1], strides[n - 1]);
    }
  }

  /** Every position of the space is charged to a device between 0 and MaxDevice. */
  lemma DevAtBound(p: int, a: seq<int>, local: seq<int>, strides: seq<int>)
    requires Shape(a, local, strides) && 0 <= p < Prod(a)
    ensures 0 <= DevAt(p, a, local, strides) <= MaxDevice(a, local, strides)
  {
    LinearUnlinear(p, a);
    DeviceMonotone(Unlinear(p, a), LastIndex(a), local, strides);
  }

  /** With all-zero strides, as distribute sets up for one device, every cursor belongs to device 0. */
  lemma {:induction false} ZeroStridesDevice(c: seq<int>, local: seq<int>, strides: seq<int>)
    requires |c| == |local| == |strides| && Positive(local)
    requires forall d :: 0 <= d < |strides| ==> strides[d] == 0
    ensures Device(c, local, strides) == 0
  {
    if |c| > 0 {
      ZeroStridesDevice(c[..|c| - 1], local[..|c| - 1], strides[..|c| - 1]);
    }
  }

  /**
   * The m positions starting at an in-range cursor, as long as they stay inside the cursor's
   * tile and extent on the lowest-order axis, all belong to the cursor's device.
   */
  lemma RunSameDevice(c: seq<int>, a: seq<int>, local: seq<int>, strides: seq<int>, m: int)
    requires Shape(a, local, strides) && InRange(c, a)
    requires c[|c| - 1] + m <= a[|a| - 1]
    requires c[|c| - 1] % local[|c| - 1] + m <= local[|c| - 1]
    ensures forall p :: Linear(c, a) <= p < Linear(c, a) + m ==>
      DevAt(p, a, local, strides) == Device(c, local, strides)
  {
    forall p | Linear(c, a) <= p < Linear(c, a) + m
      ensures DevAt(p, a, local, strides) == Device(c, local, strides)
    {
      StepSameDevice(c, a, local, strides, p - Linear(c, a));
    }
  }

  /** A run along the lowest-order axis that stays inside its extent ends inside the space. */
  lemma RunEnd(c: seq<int>, a: seq<int>, m: nat)
    requires |a| >= 1 && Positive(a) && InRange(c, a) && c[|c| - 1] + m <= a[|a| - 1]
    ensures Linear(c, a) + m <= Prod(a)
  {
    if m > 0 {
      var n := |c|;
      StepLowest(c, a, m - 1);
      LinearInRange(c[n - 1 := c[n - 1] + (m - 1)], a);
    } else {
      LinearInRange(c, a);
    }
  }

  lemma StepSameDevice(c: seq<int>, a: seq<int>, local: seq<int>, strides: seq<int>, t: int)
    requires Shape(a, local, strides) && InRange(c, a)
    requires 0 <= t
    requires c[|c| - 1] + t < a[|a| - 1]
    requires c[|c| - 1] % local[|c| - 1] + t < local[|c| - 1]
    ensures DevAt(Linear(c, a) + t, a, local, strides) == Device(c, local, strides)
  {
    StepInTile(c, a, local, t);
    SameTileDevice(c, c[|c| - 1 := c[|c| - 1] + t], a, local, strides, Linear(c, a) + t);
  }

  /** The step of StepSameDevice on the cursor: it stays in range and in the same tile of the lowest-order axis. */
  lemma StepInTile(c: seq<int>, a: seq<int>, local: seq<int>, t: int)
    requires InRange(c, a) && |local| == |c| >= 1 && local[|c| - 1] > 0 && 0 <= t
    requires c[|c| - 1] + t < a[|a| - 1] && c[|c| - 1] % local[|c| - 1] + t < local[|c| - 1]
    ensures InRange(c[|c| - 1 := c[|c| - 1] + t], a)
    ensures Linear(c[|c| - 1 := c[|c| - 1] + t], a) == Linear(c, a) + t
    ensures c[|c| - 1 := c[|c| - 1] + t][..|c| - 1] == c[..|c| - 1]
    ensures c[|c| - 1 := c[|c| - 1] + t][|c| - 1] / local[|c| - 1] == c[|c| - 1] / local[|c| - 1]
  {
    StepLowest(c, a, t);
    SameTile(c[|c| - 1], c[|c| - 1 := c[|c| - 1] + t][|c| - 1], t, local[|c| - 1]);
  }

  /** A cursor that differs only on the lowest-order axis, within the same tile there, has the same device. */
  lemma SameTileDevice(c: seq<int>, c2: seq<int>, a: seq<int>, local: seq<int>, strides: seq<int>, p: int)
    requires Shape(a, local, strides) && InRange(c, a) && InRange(c2, a)
    requires c2[..|c| - 1] == c[..|c| - 1]
    requires c2[|c| - 1] / local[|c| - 1] == c[|c| - 1] / local[|c| - 1]
    requires p == Linear(c2, a)
    ensures DevAt(p, a, local, strides) == Device(c, local, strides)
  {
    DevAtCursor(c2, a, local, strides);
    DeviceLastAxis(c, c2, local, strides);
  }

  lemma SameTile(x: int, y: int, t: int, l: int)
    requires l > 0 && 0 <= t && x % l + t < l && y == x + t
    ensures y / l == x / l
  {
    TileIndexStable(x, t, l);
  }

  /** The device of an in-range cursor's position is the device of the cursor. */
  lemma DevAtCursor(c: seq<int>, a: seq<int>, local: seq<int>, strides: seq<int>)
    requires Shape(a, local, strides) && InRange(c, a)
    ensures DevAt(Linear(c, a), a, local, strides) == Device(c, local, strides)
  {
    UnlinearLinear(c, a);
  }

  /** Moving t steps along the lowest-order axis inside its extent stays in range and adds t to the position. */
  lemma StepLowest(c: seq<int>, a: seq<int>, t: int)
    requires InRange(c, a) && |c| >= 1 && 0 <= t && c[|c| - 1] + t < a[|a| - 1]
    ensures InRange(c[|c| - 1 := c[|c| - 1] + t], a)
    ensures Linear(c[|c| - 1 := c[|c| - 1] + t], a) == Linear(c, a) + t
    ensures c[|c| - 1 := c[|c| - 1] + t][..|c| - 1] == c[..|c| - 1]
  {
    var n := |c|;
    var c2 := c[n - 1 := c[n - 1] + t];
    assert c2[..n - 1] == c[..n - 1];
  }

  lemma TileIndexStable(x: int, t: int, l: int)
    requires l > 0 && 0 <= t && x % l + t < l
    ensures (x + t) / l == x / l
  {
    DivModUnique(x + t, l, x / l, x % l + t);
  }

  /** Two cursors that differ only on the lowest-order axis, within one tile, have the same device. */
  lemma DeviceLastAxis(c: seq<int>, c2: seq<int>, local: seq<int>, strides: seq<int>)
    requires |c| == |c2| == |local| == |strides| >= 1 && Positive(local)
    requires c2[..|c| - 1] == c[..|c| - 1]
    requires c2[|c| - 1] / local[|c| - 1] == c[|c| - 1] / local[|c| - 1]
    ensures Device(c2, local, strides) == Device(c, local, strides)
  {
  }
}
