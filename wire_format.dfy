/** The canonical byte stream that `MotorDigest.update(DataType, int...)`
    feeds to the message digest, and a decoder that shows the stream is
    unambiguous: different sequences of datasets never produce the same
    bytes, so any two digests that differ in their data differ in what is
    hashed. */
module WireFormat {

  import opened Wrappers
  import opened Int32Bytes
  import opened DataTypes

  /** A Java `int[]`: its length is itself an `int`. */
  type IntArray = s: seq<Int32> | |s| <= 0x7FFF_FFFF

  /** The arguments of one `update(type, values)` call. */
  datatype Dataset = Dataset(kind: DataType, values: IntArray)

  /** `bytes(v)` for each value in turn, as the loop over `values` feeds them. */
  function EncodeValues(vs: seq<Int32>): (r: seq<Byte>)
    ensures |r| == 4 * |vs|
  {
    if vs == [] then [] else Bytes(vs[0]) + EncodeValues(vs[1..])
  }

  /** What one `update` call feeds: the type's order, the value count,
      then every value, each as 4 big-endian bytes. */
  function Record(d: Dataset): (r: seq<Byte>)
    ensures |r| == 4 * (2 + |d.values|)
    ensures d.values == [] ==> |r| == 8
  {
    Bytes(d.kind.Order()) + Bytes(|d.values|) + EncodeValues(d.values)
  }

  /** What a sequence of successful `update` calls feeds, in call order. */
  function Stream(h: seq<Dataset>): (r: seq<Byte>)
    ensures |r| >= 8 * |h|
    ensures r == [] <==> h == []
  {
    if h == [] then [] else Record(h[0]) + Stream(h[1..])
  }

  /** Appending a value appends its four bytes: the loop's step. */
  lemma {:induction false} EncodeValuesAppend(vs: seq<Int32>, v: Int32)
    ensures EncodeValues(vs + [v]) == EncodeValues(vs) + Bytes(v)
  {
    if vs == [] {
      assert vs + [v] == [v];
      assert EncodeValues([v]) == Bytes(v) + EncodeValues([]);
    } else {
      assert (vs + [v])[0] == vs[0];
      assert (vs + [v])[1..] == vs[1..] + [v];
      EncodeValuesAppend(vs[1..], v);
    }
  }

  /** Encoding one more value of a prefix appends its four bytes after
      whatever was fed before them. */
  lemma EncodeValuesPrefix(before: seq<Byte>, vs: seq<Int32>, i: nat)
    requires i < |vs|
    ensures before + EncodeValues(vs[..i + 1]) == before + EncodeValues(vs[..i]) + Bytes(vs[i])
  {
    assert vs[..i + 1] == vs[..i] + [vs[i]];
    EncodeValuesAppend(vs[..i], vs[i]);
  }

  /** A slice that lies past the first part of a concatenation is a slice
      of the second part. */
  lemma SliceOfSecond(a: seq<Byte>, b: seq<Byte>, lo: nat, hi: nat)
    requires |a| <= lo <= hi <= |a| + |b|
    ensures (a + b)[lo..hi] == b[lo - |a|..hi - |a|]
  {
    forall k | 0 <= k < hi - lo
      ensures (a + b)[lo..hi][k] == b[lo - |a|..hi - |a|][k]
    {
      assert (a + b)[lo + k] == b[lo + k - |a|];
    }
  }

  /** The i-th 4-byte block of the encoded values is `bytes(values[i])`. */
  lemma {:induction false} EncodeValuesAt(vs: seq<Int32>, i: nat)
    requires i < |vs|
    ensures EncodeValues(vs)[4 * i .. 4 * i + 4] == Bytes(vs[i])
  {
    var first, others := Bytes(vs[0]), EncodeValues(vs[1..]);
    assert EncodeValues(vs) == first + others;
    if i == 0 {
      assert (first + others)[..4] == first;
    } else {
      EncodeValuesAt(vs[1..], i - 1);
      SliceOfSecond(first, others, 4 * i, 4 * i + 4);
    }
  }

  /** A record starts with the order and the count, in that order. */
  lemma RecordLayout(d: Dataset)
    ensures FromBytes(Record(d)[..4]) == d.kind.Order()
    ensures FromBytes(Record(d)[4..8]) == |d.values|
    ensures Record(d)[8..] == EncodeValues(d.values)
  {
    var r := Record(d);
    assert r[..4] == Bytes(d.kind.Order());
    assert r[4..8] == Bytes(|d.values|);
    FromBytesOfBytes(d.kind.Order());
    FromBytesOfBytes(|d.values|);
  }

  /** A record fed after `before` is its three parts fed one after the other. */
  lemma RecordAfter(before: seq<Byte>, d: Dataset)
    ensures before + Record(d)
         == before + Bytes(d.kind.Order()) + Bytes(|d.values|) + EncodeValues(d.values)
  {
    var k, n, e := Bytes(d.kind.Order()), Bytes(|d.values|), EncodeValues(d.values);
    assert before + (k + n + e) == before + k + n + e;
  }

  /** A later dataset's record follows everything fed before it. */
  lemma {:induction false} StreamAppend(h: seq<Dataset>, d: Dataset)
    ensures Stream(h + [d]) == Stream(h) + Record(d)
  {
    if h == [] {
      assert h + [d] == [d];
      assert Stream([d]) == Record(d) + Stream([]);
    } else {
      assert (h + [d])[0] == h[0];
      assert (h + [d])[1..] == h[1..] + [d];
      StreamAppend(h[1..], d);
    }
  }

  /** Reads `n` values of 4 bytes each, returning them and the bytes after. */
  function DecodeValues(b: seq<Byte>, n: nat): (r: Option<(seq<Int32>, seq<Byte>)>)
    ensures r.Some? <==> 4 * n <= |b|
    ensures r.Some? ==> |r.value.0| == n && r.value.1 == b[4 * n..]
    decreases n
  {
    if n == 0 then Some(([], b))
    else if |b| < 4 then None
    else
      match DecodeValues(b[4..], n - 1)
      case None => None
      case Some((vs, rest)) => Some(([FromBytes(b[..4])] + vs, rest))
  }

  /** Reads one record off the front of a byte stream: the dataset it
      encodes and the bytes after it. */
  function DecodeRecord(b: seq<Byte>): (r: Option<(Dataset, seq<Byte>)>)
    ensures r.Some? ==> |r.value.1| < |b|
  {
    if |b| < 8 then None
    else
      var kind := FromOrder(FromBytes(b[..4]));
      var count := FromBytes(b[4..8]);
      if kind.None? || count < 0 then None
      else
        match DecodeValues(b[8..], count)
        case None => None
        case Some((vs, rest)) => Some((Dataset(kind.value, vs), rest))
  }

  /** Reads a byte stream back into the datasets that produced it, or
      `None` if no sequence of `update` calls feeds these bytes. */
  function DecodeStream(b: seq<Byte>): Option<seq<Dataset>>
    decreases |b|
  {
    if b == [] then Some([])
    else
      match DecodeRecord(b)
      case None => None
      case Some((d, rest)) =>
        match DecodeStream(rest)
        case None => None
        case Some(ds) => Some([d] + ds)
  }

  /** Decoding the encoded values gives them back, whatever follows them. */
  lemma {:induction false} DecodeEncodeValues(vs: seq<Int32>, tail: seq<Byte>)
    ensures DecodeValues(EncodeValues(vs) + tail, |vs|) == Some((vs, tail))
  {
    if vs != [] {
      var first, others := Bytes(vs[0]), EncodeValues(vs[1..]);
      var b := EncodeValues(vs) + tail;
      assert b == first + (others + tail);
      assert b[..4] == first;
      assert b[4..] == others + tail;
      FromBytesOfBytes(vs[0]);
      DecodeEncodeValues(vs[1..], tail);
      assert [vs[0]] + vs[1..] == vs;
    }
  }

  /** Decoding a record reads back its dataset and leaves what follows. */
  lemma DecodeRecordOfRecord(d: Dataset, rest: seq<Byte>)
    ensures DecodeRecord(Record(d) + rest) == Some((d, rest))
  {
    var b := Record(d) + rest;
    RecordLayout(d);
    assert b[..4] == Record(d)[..4];
    assert b[4..8] == Record(d)[4..8];
    assert b[8..] == EncodeValues(d.values) + rest;
    FromOrderOfOrder(d.kind);
    DecodeEncodeValues(d.values, rest);
  }

  /** A stream decodes record by record. */
  lemma DecodeStreamCons(b: seq<Byte>, d: Dataset, rest: seq<Byte>, ds: seq<Dataset>)
    requires b != [] && DecodeRecord(b) == Some((d, rest)) && DecodeStream(rest) == Some(ds)
    ensures DecodeStream(b) == Some([d] + ds)
  {
  }

  /** Round trip: the byte stream of any sequence of `update` calls decodes
      to exactly those calls. */
  lemma {:induction false} DecodeStreamOfStream(h: seq<Dataset>)
    ensures DecodeStream(Stream(h)) == Some(h)
  {
    if h != [] {
      var rest := Stream(h[1..]);
      var b := Stream(h);
      assert b == Record(h[0]) + rest;
      DecodeStreamOfStream(h[1..]);
      DecodeRecordOfRecord(h[0], rest);
      DecodeStreamCons(b, h[0], rest, h[1..]);
      assert [h[0]] + h[1..] == h;
    }
  }

  /** The wire format is canonical: two different call sequences never feed
      the same bytes to the digest. */
  lemma StreamInjective(h1: seq<Dataset>, h2: seq<Dataset>)
    requires Stream(h1) == Stream(h2)
    ensures h1 == h2
  {
    DecodeStreamOfStream(h1);
    DecodeStreamOfStream(h2);
  }
}
