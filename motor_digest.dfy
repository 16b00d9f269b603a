/** `MotorDigest`: a single-use builder that feeds typed numeric datasets,
    in strictly increasing `DataType` order, to an MD5 message digest and
    hands out the digest once. */
module Motor {

  import opened Wrappers
  import opened Int32Bytes
  import opened DataTypes
  import opened WireFormat

  /** The two exceptions the builder throws. */
  datatype Error =
    | IllegalArgument(kind: DataType, lastOrder: int)  // `update` called out of order
    | IllegalState                                     // `getDigest` called a second time

  /** The IEEE double operations of the floating-point overload; this
      model does not interpret them. */
  datatype DoubleOps<!D> = DoubleOps(
    next: D -> D,            // `next(v)`, that is `v + Math.signum(v) * EPSILON`
    times: (D, int) -> D,    // `v * multiplier`
    roundToInt: D -> Int32)  // `(int) Math.round(v)`

  /** The integer one double value is quantised to: bias, scale, bias, round. */
  function Quantize<D>(ops: DoubleOps<D>, v: D, multiplier: int): Int32
  {
    ops.roundToInt(ops.next(ops.times(ops.next(v), multiplier)))
  }

  /** Every value quantised, in order. */
  function QuantizeAll<D>(ops: DoubleOps<D>, values: seq<D>, multiplier: int): (r: seq<Int32>)
    ensures |r| == |values|
    ensures forall i :: 0 <= i < |values| ==> r[i] == Quantize(ops, values[i], multiplier)
  {
    seq(|values|, i requires 0 <= i < |values| => Quantize(ops, values[i], multiplier))
  }

  /** The orders of the accepted datasets strictly increase. */
  ghost predicate Ascending(h: seq<Dataset>)
  {
    forall i, j :: 0 <= i < j < |h| ==> h[i].kind.Order() < h[j].kind.Order()
  }

  /** The `lastOrder` watermark after the datasets `h`: -1 before any. */
  function LastOrder(h: seq<Dataset>): int
  {
    if h == [] then -1 else h[|h| - 1].kind.Order()
  }

  /** A dataset whose order is above the watermark keeps the orders ascending. */
  lemma AscendingAppend(h: seq<Dataset>, d: Dataset)
    requires Ascending(h) && LastOrder(h) < d.kind.Order()
    ensures Ascending(h + [d])
  {
    var h' := h + [d];
    forall i, j | 0 <= i < j < |h'|
      ensures h'[i].kind.Order() < h'[j].kind.Order()
    {
      if j == |h| && i < |h| - 1 {
        assert h[i].kind.Order() < h[|h| - 1].kind.Order();
      }
    }
  }

  /** Accepting a dataset above the watermark extends the accepted
      history, the bytes fed and the watermark consistently. */
  lemma Accept(h: seq<Dataset>, d: Dataset)
    requires Ascending(h) && LastOrder(h) < d.kind.Order()
    ensures Ascending(h + [d]) && LastOrder(h + [d]) == d.kind.Order()
    ensures Stream(h + [d]) == Stream(h) + Bytes(d.kind.Order()) + Bytes(|d.values|) + EncodeValues(d.values)
  {
    AscendingAppend(h, d);
    StreamAppend(h, d);
    RecordAfter(Stream(h), d);
  }

  /** Ascending orders span at least as many ranks as there are datasets. */
  lemma {:induction false} AscendingSpan(h: seq<Dataset>)
    requires Ascending(h) && h != []
    ensures h[0].kind.Order() + |h| - 1 <= h[|h| - 1].kind.Order()
  {
    if |h| > 1 {
      assert Ascending(h[1..]) by {
        forall i, j | 0 <= i < j < |h| - 1
          ensures h[1..][i].kind.Order() < h[1..][j].kind.Order()
        {
          assert h[1..][i] == h[i + 1] && h[1..][j] == h[j + 1];
        }
      }
      AscendingSpan(h[1..]);
      assert h[0].kind.Order() < h[1].kind.Order();
    }
  }

  /** Since orders run from 0 to 5, one builder accepts at most six updates. */
  lemma AtMostSixUpdates(h: seq<Dataset>)
    requires Ascending(h)
    ensures |h| <= 6
  {
    if h != [] {
      AscendingSpan(h);
    }
  }

  class MotorDigest {

    /** The hash of `MessageDigest.getInstance("MD5")`, not interpreted. */
    const md5: seq<Byte> -> seq<Byte>

    /** The bytes fed to the message digest so far. */
    var fed: seq<Byte>

    /** Whether `getDigest` has been called. */
    var used: bool

    /** The order of the last accepted dataset; -1 before any. */
    var lastOrder: int

    /** The datasets accepted so far, in call order. */
    ghost var history: seq<Dataset>

    ghost predicate Valid()
      reads this
    {
      Ascending(history) && fed == Stream(history) && lastOrder == LastOrder(history)
    }

    /** `new MotorDigest()`: nothing fed, not used, watermark -1. */
    constructor (md5: seq<Byte> -> seq<Byte>)
      ensures Valid() && this.md5 == md5
      ensures history == [] && fed == [] && !used && lastOrder == -1
    {
      this.md5 := md5;
      fed := [];
      used := false;
      lastOrder := -1;
      history := [];
    }

    /** `update(type, int... values)`. Rejects an order at or below the
        watermark before changing anything; otherwise raises the watermark
        and feeds the order, the count and every value, 4 bytes each. */
    method Update(kind: DataType, values: IntArray) returns (r: Outcome<Error>)
      requires Valid()
      modifies this`fed, this`lastOrder, this`history
      ensures Valid()
      ensures r.Fail? <==> old(lastOrder) >= kind.Order()
      ensures r.Fail? ==> r.error == IllegalArgument(kind, old(lastOrder))
      ensures r.Fail? ==> fed == old(fed) && lastOrder == old(lastOrder) && history == old(history)
      ensures r.Pass? ==> lastOrder == kind.Order()
      ensures r.Pass? ==> fed == old(fed) + Bytes(kind.Order()) + Bytes(|values|) + EncodeValues(values)
      ensures r.Pass? ==> |fed| == |old(fed)| + 4 * (2 + |values|)
      ensures r.Pass? ==> history == old(history) + [Dataset(kind, values)]
    {
      if lastOrder >= kind.Order() {
        return Fail(IllegalArgument(kind, lastOrder));
      }
      ghost var d := Dataset(kind, values);
      Accept(history, d);
      lastOrder := kind.Order();
      fed := fed + Bytes(kind.Order());
      fed := fed + Bytes(|values|);
      FeedValues(values);
      history := history + [d];
      r := Pass;
    }

    /** The loop of `update(type, int... values)`: feeds every value, in
        order, as its 4 bytes. */
    method FeedValues(values: seq<Int32>)
      modifies this`fed
      ensures fed == old(fed) + EncodeValues(values)
    {
      ghost var before := fed;
      var i := 0;
      while i < |values|
        invariant 0 <= i <= |values|
        invariant fed == before + EncodeValues(values[..i])
      {
        EncodeValuesPrefix(before, values, i);
        fed := fed + Bytes(values[i]);
        i := i + 1;
      }
      assert values[..i] == values;
    }

    /** The private `update(type, multiplier, double... values)`: quantises
        every value into a new `int[]` of the same length, then delegates to
        the `int` overload with the same type. */
    method UpdateScaled<D>(kind: DataType, multiplier: int, values: seq<D>, ops: DoubleOps<D>)
      returns (r: Outcome<Error>)
      requires Valid() && |values| <= MAX_INT32
      modifies this`fed, this`lastOrder, this`history
      ensures Valid()
      ensures r.Fail? <==> old(lastOrder) >= kind.Order()
      ensures r.Fail? ==> r.error == IllegalArgument(kind, old(lastOrder))
      ensures r.Fail? ==> fed == old(fed) && lastOrder == old(lastOrder) && history == old(history)
      ensures r.Pass? ==> lastOrder == kind.Order()
      ensures r.Pass? ==> var ints := QuantizeAll(ops, values, multiplier);
        && fed == old(fed) + Bytes(kind.Order()) + Bytes(|values|) + EncodeValues(ints)
        && history == old(history) + [Dataset(kind, ints)]
    {
      var intValues := new Int32[|values|];
      for i := 0 to |values|
        modifies intValues
        invariant forall j :: 0 <= j < i ==> intValues[j] == Quantize(ops, values[j], multiplier)
      {
        var v := values[i];
        v := ops.next(v);
        v := ops.times(v, multiplier);
        v := ops.next(v);
        intValues[i] := ops.roundToInt(v);
      }
      assert intValues[..] == QuantizeAll(ops, values, multiplier);
      r := Update(kind, intValues[..]);
    }

    /** `update(type, double... values)`: the private overload with the
        type's own multiplier. */
    method UpdateDoubles<D>(kind: DataType, values: seq<D>, ops: DoubleOps<D>)
      returns (r: Outcome<Error>)
      requires Valid() && |values| <= MAX_INT32
      modifies this`fed, this`lastOrder, this`history
      ensures Valid()
      ensures r.Fail? <==> old(lastOrder) >= kind.Order()
      ensures r.Fail? ==> r.error == IllegalArgument(kind, old(lastOrder))
      ensures r.Fail? ==> fed == old(fed) && lastOrder == old(lastOrder) && history == old(history)
      ensures r.Pass? ==> lastOrder == kind.Order()
      ensures r.Pass? ==> var ints := QuantizeAll(ops, values, kind.Multiplier());
        && fed == old(fed) + Bytes(kind.Order()) + Bytes(|values|) + EncodeValues(ints)
        && history == old(history) + [Dataset(kind, ints)]
    {
      r := UpdateScaled(kind, kind.Multiplier(), values, ops);
    }

    /** `getDigest()`: succeeds only the first time, marking the builder
        used; the digest is the hex rendering of the hash of every byte the
        accepted datasets fed. */
    method GetDigest(hexString: seq<Byte> -> string) returns (r: Result<string, Error>)
      requires Valid()
      modifies this`used
      ensures Valid() && used
      ensures old(used) ==> r == Failure(IllegalState)
      ensures !old(used) ==> r == Success(hexString(md5(Stream(history))))
    {
      if used {
        return Failure(IllegalState);
      }
      used := true;
      r := Success(hexString(md5(fed)));
    }
  }

  /** The call sequences the builder rejects: a repeated or out-of-order
      update, and a second `getDigest`. */
  method RejectedCalls(md5: seq<Byte> -> seq<Byte>, hexString: seq<Byte> -> string,
                       times: IntArray, masses: IntArray)
  {
    var a := new MotorDigest(md5);
    var o := a.Update(MassSpecific, masses);
    assert o.Pass?;
    o := a.Update(TimeArray, times);
    assert o == Fail(IllegalArgument(TimeArray, 1));
    o := a.Update(MassSpecific, masses);
    assert o.Fail?;
    var d := a.GetDigest(hexString);
    assert d.Success?;
    d := a.GetDigest(hexString);
    assert d == Failure(IllegalState);
  }

  /** `update` does not consult `used`: a dataset in order is still accepted
      after the digest was taken. */
  method UpdateAfterDigest(md5: seq<Byte> -> seq<Byte>, hexString: seq<Byte> -> string, forces: IntArray)
  {
    var a := new MotorDigest(md5);
    var d := a.GetDigest(hexString);
    var o := a.Update(ForcePerTime, forces);
    assert d.Success? && o.Pass? && a.used;
  }

  /** Two motors whose time arrays differ feed different bytes to the hash. */
  method DifferentDataDifferentBytes(md5: seq<Byte> -> seq<Byte>, times1: IntArray, times2: IntArray)
    requires times1 != times2
  {
    var b := new MotorDigest(md5);
    var o := b.Update(TimeArray, times1);
    var c := new MotorDigest(md5);
    o := c.Update(TimeArray, times2);
    assert b.history[0].values != c.history[0].values;
    assert b.fed != c.fed by {
      if b.fed == c.fed {
        StreamInjective(b.history, c.history);
      }
    }
  }
}
