# MotorDigest in Dafny

OpenRocket identifies a rocket motor by a digest of its data. The class
`MotorDigest` is a single-use builder for that digest:

- each call to `update(type, values)` feeds one typed dataset to an MD5
  message digest;
- the `DataType` orders must strictly increase from one call to the next;
- `getDigest()` hands out the hex digest once.

This project models that builder and proves properties of the model. It also
models the whitespace normalisation that `digestComment` applies before
hashing a free-text comment.

The modules:

- `Int32Bytes` (`int32_bytes.dfy`): Java's 32-bit `int` and `bytes(int)`,
  the 4-byte big-endian two's-complement encoding. The file proves the
  encoding's round trip in both directions.
- `DataTypes` (`data_type.dfy`): the `DataType` enum. Each of its six
  constants has an order (0..5) and a quantisation multiplier.
- `WireFormat` (`wire_format.dfy`): the bytes one `update` feeds and the
  bytes a sequence of updates feeds. The file includes a decoder for those
  bytes and proves that decoding inverts encoding. So the stream is
  canonical: two different sequences of calls never feed the same bytes to
  the hash.
- `Motor` (`motor_digest.dfy`): the class `MotorDigest` with the fields
  `used`, `lastOrder` and `fed`.
  - `fed` holds the bytes given to the message digest so far.
  - The ghost field `history` lists the accepted datasets.
  - The invariant `Valid()` ties `fed` and `lastOrder` to `history`.
  - The Java exceptions become `Outcome`/`Result` values.
  - Three small client methods exercise the contracts on call sequences:
    - `RejectedCalls`: a repeated update, an out-of-order update and a
      second `getDigest` are rejected.
    - `UpdateAfterDigest`: the code accepts an update after the digest.
    - `DifferentDataDifferentBytes`: different time arrays feed different
      bytes.
- `CommentDigest` (`comment.dfy`): `replaceAll("\\s+", " ").trim()` and
  `digestComment`.
  - Java's regular-expression `\s` is modelled as space, tab, line feed,
    vertical tab, form feed and carriage return.
  - `String.trim` removes every leading and trailing character at or below
    U+0020.
- `CommentExamples` (`comment_examples.dfy`): the normalisation worked
  through on the comment `"  a   b\n\tc "`.
- `Wrappers` (`wrappers.dfy`): `Option`, `Result` and `Outcome`.

`update` never reads `used`, so an `update` in order after `getDigest` is
accepted (`MotorDigest.java:56-76`); `Motor.UpdateAfterDigest` shows the
call.

## Model

| member | source | states |
|---|---|---|
| Int32Bytes.Unsigned | src/net/sf/openrocket/motor/MotorDigest.java:114-115 | the 32 bits that `>>>` shifts: a value below 2^32, congruent to the `int` modulo 2^32, and equal to it when it is non-negative |
| Int32Bytes.Bytes | src/net/sf/openrocket/motor/MotorDigest.java:112-117 | `bytes(v)` is exactly 4 bytes whose big-endian reading is the unsigned (two's-complement) value of `v` |
| Int32Bytes.FromBytes | src/net/sf/openrocket/motor/MotorDigest.java:112-117 | reading 4 bytes back as a big-endian two's-complement `int` gives a value whose unsigned bits are those bytes |
| Int32Bytes.FromBytesOfBytes | src/net/sf/openrocket/motor/MotorDigest.java:112-117 | round trip: decoding `bytes(v)` gives back `v` |
| Int32Bytes.BytesOfFromBytes | src/net/sf/openrocket/motor/MotorDigest.java:112-117 | the other direction: every 4-byte sequence is `bytes` of the `int` it decodes to |
| Int32Bytes.BytesInjective | src/net/sf/openrocket/motor/MotorDigest.java:112-117 | distinct `int`s are encoded as distinct byte quadruples |
| Int32Bytes.BigEndianInjective | src/net/sf/openrocket/motor/MotorDigest.java:113-116 | the most-significant-first reading of 4 bytes determines the bytes |
| DataTypes.DataType.Order | src/net/sf/openrocket/motor/MotorDigest.java:15-35 | `getOrder()` lies between 0 and 5 |
| DataTypes.DataType.Multiplier | src/net/sf/openrocket/motor/MotorDigest.java:15-38 | `getMultiplier()` is 1000 or 10000 |
| DataTypes.AllDataTypes | src/net/sf/openrocket/motor/MotorDigest.java:13-25 | six constants in declaration order, the i-th with order i, and every constant sits at the index of its order |
| DataTypes.Multipliers | src/net/sf/openrocket/motor/MotorDigest.java:15-25 | the multipliers in declaration order are 1000, 10000, 10000, 1000, 1000, 1000 |
| DataTypes.FromOrder | src/net/sf/openrocket/motor/MotorDigest.java:15-25 | a data type has order k exactly when 0 <= k <= 5, and the one found has that order |
| DataTypes.OrderInjective | src/net/sf/openrocket/motor/MotorDigest.java:15-25 | the orders are distinct: the order determines the data type |
| DataTypes.FromOrderOfOrder | src/net/sf/openrocket/motor/MotorDigest.java:15-35 | looking up a type's own order finds that type |
| WireFormat.EncodeValues | src/net/sf/openrocket/motor/MotorDigest.java:72-74 | the value loop feeds 4 bytes per value |
| WireFormat.EncodeValuesAppend | src/net/sf/openrocket/motor/MotorDigest.java:72-74 | one more value appends exactly its 4 bytes |
| WireFormat.EncodeValuesAt | src/net/sf/openrocket/motor/MotorDigest.java:72-74 | the i-th 4-byte block of the encoded values is `bytes(values[i])` |
| WireFormat.Record | src/net/sf/openrocket/motor/MotorDigest.java:66-74 | one update feeds exactly 4 * (2 + n) bytes, and 8 bytes for an empty `values` |
| WireFormat.Stream | src/net/sf/openrocket/motor/MotorDigest.java:56-76 | a sequence of updates feeds at least 8 bytes per update, and feeds nothing exactly when there are no updates |
| WireFormat.RecordLayout | src/net/sf/openrocket/motor/MotorDigest.java:66-74 | a record decodes to the order in its first 4 bytes and the count in the next 4, and the values follow |
| WireFormat.StreamAppend | src/net/sf/openrocket/motor/MotorDigest.java:56-76 | a later update's record follows everything fed before it |
| WireFormat.DecodeValues | src/net/sf/openrocket/motor/MotorDigest.java:72-74 | reading n values succeeds exactly when 4n bytes are there, yields n values and leaves the bytes after them |
| WireFormat.DecodeRecord | src/net/sf/openrocket/motor/MotorDigest.java:66-74 | reading a record consumes at least one byte |
| WireFormat.DecodeEncodeValues | src/net/sf/openrocket/motor/MotorDigest.java:72-74 | decoding encoded values gives them back and leaves whatever followed |
| WireFormat.DecodeRecordOfRecord | src/net/sf/openrocket/motor/MotorDigest.java:66-74 | decoding a record gives back its data type and values and leaves what followed |
| WireFormat.DecodeStreamCons | src/net/sf/openrocket/motor/MotorDigest.java:56-76 | a stream decodes one record after another |
| WireFormat.DecodeStreamOfStream | src/net/sf/openrocket/motor/MotorDigest.java:56-76 | round trip: the bytes of any sequence of updates decode to exactly that sequence |
| WireFormat.StreamInjective | src/net/sf/openrocket/motor/MotorDigest.java:56-76 | two different sequences of updates never feed the same bytes |
| Motor.AscendingAppend | src/net/sf/openrocket/motor/MotorDigest.java:59-63 | a dataset above the watermark keeps the accepted orders strictly increasing |
| Motor.Accept | src/net/sf/openrocket/motor/MotorDigest.java:59-74 | accepting a dataset above the watermark keeps the orders increasing, moves the watermark to its order and appends its record to the stream |
| Motor.AscendingSpan | src/net/sf/openrocket/motor/MotorDigest.java:15-25 | n strictly increasing orders span at least n ranks |
| Motor.AtMostSixUpdates | src/net/sf/openrocket/motor/MotorDigest.java:15-25 | since orders run from 0 to 5, one builder accepts at most six updates |
| Motor.QuantizeAll | src/net/sf/openrocket/motor/MotorDigest.java:81-88 | the quantised array has the length of the input, and entry i is value i biased, scaled, biased again and rounded (`Motor.Quantize`), in that order |
| Motor.MotorDigest.constructor | src/net/sf/openrocket/motor/MotorDigest.java:42-53 | a new builder has fed nothing, is not used and has watermark -1 |
| Motor.MotorDigest.Update | src/net/sf/openrocket/motor/MotorDigest.java:56-76 | fails exactly when the order is at or below the watermark, reports the type and watermark and changes nothing; otherwise sets the watermark to the order and appends the order, the count and every value, 4 * (2 + n) bytes in all; `used` is outside its frame |
| Motor.MotorDigest.FeedValues | src/net/sf/openrocket/motor/MotorDigest.java:72-74 | the loop appends every value's 4 bytes, in order |
| Motor.MotorDigest.UpdateScaled | src/net/sf/openrocket/motor/MotorDigest.java:79-90 | quantises each value into an array of the same length and then behaves as the `int` overload with the same type: same failure condition and watermark, same bytes for those integers |
| Motor.MotorDigest.UpdateDoubles | src/net/sf/openrocket/motor/MotorDigest.java:92-94 | the same as the scaled overload with the type's own multiplier |
| Motor.MotorDigest.GetDigest | src/net/sf/openrocket/motor/MotorDigest.java:101-108 | fails when the builder is already used; otherwise returns the hex rendering of the hash of every byte the accepted datasets fed; the builder is used afterwards |
| CommentDigest.DropSpaces | src/net/sf/openrocket/motor/MotorDigest.java:123 | drops only `\s` characters, and the result does not start with one |
| CommentDigest.DropSpacesIsSuffix | src/net/sf/openrocket/motor/MotorDigest.java:123 | what dropping the leading run of `\s` keeps is the end of the input |
| CommentDigest.DropSpacesOfRun | src/net/sf/openrocket/motor/MotorDigest.java:123 | a run of `\s` followed by a character that is not `\s` is dropped whole |
| CommentDigest.DropSpacesAppend | src/net/sf/openrocket/motor/MotorDigest.java:123 | dropping the leading run of a string that holds a non-`\s` character does not touch what follows it |
| CommentDigest.CollapseSpaces | src/net/sf/openrocket/motor/MotorDigest.java:123 | `replaceAll("\\s+", " ")` never lengthens the comment and keeps a leading character that is not `\s` |
| CommentDigest.CollapseLeadingRun | src/net/sf/openrocket/motor/MotorDigest.java:123 | a run of `\s` at the front of the comment becomes exactly one space |
| CommentDigest.CollapseAround | src/net/sf/openrocket/motor/MotorDigest.java:123 | collapsing a part that ends without `\s` and a following part that starts with `\s` collapses each part on its own |
| CommentDigest.CollapseRun | src/net/sf/openrocket/motor/MotorDigest.java:123 | `replaceAll("\\s+", " ")` turns each maximal run of `\s` into exactly one space and collapses the text on each side of it independently |
| CommentDigest.CollapseIsSingleSpaced | src/net/sf/openrocket/motor/MotorDigest.java:123 | after collapsing, every `\s` character is a plain space and no two of them are adjacent |
| CommentDigest.DropSpacesKeepsNonSpaces | src/net/sf/openrocket/motor/MotorDigest.java:123 | dropping leading whitespace removes no other character |
| CommentDigest.CollapseKeepsNonSpaces | src/net/sf/openrocket/motor/MotorDigest.java:123 | collapsing keeps every character other than `\s`, in order |
| CommentDigest.TrimStart | src/net/sf/openrocket/motor/MotorDigest.java:123 | the leading part of `trim`: removes only characters at most U+0020 and leaves none at the front |
| CommentDigest.TrimEnd | src/net/sf/openrocket/motor/MotorDigest.java:123 | the trailing part of `trim`: removes only characters at most U+0020 and leaves none at the end |
| CommentDigest.TrimStartIsSuffix | src/net/sf/openrocket/motor/MotorDigest.java:123 | what the leading trim keeps is the end of its input |
| CommentDigest.TrimEndIsPrefix | src/net/sf/openrocket/motor/MotorDigest.java:123 | what the trailing trim keeps is the start of its input |
| CommentDigest.SingleSpacedSlice | src/net/sf/openrocket/motor/MotorDigest.java:123 | any slice of a single-spaced string is single-spaced |
| CommentDigest.Trim | src/net/sf/openrocket/motor/MotorDigest.java:123 | `String.trim` never lengthens the string, leaves no character at most U+0020 at either end, returns an already trimmed string unchanged and keeps a single-spaced string single-spaced |
| CommentDigest.Normalize | src/net/sf/openrocket/motor/MotorDigest.java:123 | the normalised comment has no `\s` other than single spaces, no two of them adjacent, and no character at most U+0020 at either end; a comment of that shape is returned unchanged |
| CommentDigest.CollapseSingleSpaced | src/net/sf/openrocket/motor/MotorDigest.java:123 | collapsing changes nothing in an already single-spaced string |
| CommentDigest.NormalizeIdempotent | src/net/sf/openrocket/motor/MotorDigest.java:123 | normalising twice gives the same string as normalising once |
| CommentDigest.DigestComment | src/net/sf/openrocket/motor/MotorDigest.java:122-139 | the digest of a comment is the digest of the normalised comment normalised again: it depends only on the normalisation |
| CommentDigest.DigestCommentOfNormalized | src/net/sf/openrocket/motor/MotorDigest.java:122-139 | a comment and its normalisation have the same digest |
| CommentExamples.CollapseTrailingBlank | src/net/sf/openrocket/motor/MotorDigest.java:123 | a single trailing blank stays one blank |
| CommentExamples.CollapseLineFeedTab | src/net/sf/openrocket/motor/MotorDigest.java:123 | a line feed followed by a tab becomes one space |
| CommentExamples.CollapseFromB | src/net/sf/openrocket/motor/MotorDigest.java:123 | `"b\n\tc "` collapses to `"b c "` |
| CommentExamples.CollapseThreeBlanks | src/net/sf/openrocket/motor/MotorDigest.java:123 | three blanks become one space |
| CommentExamples.CollapseFromA | src/net/sf/openrocket/motor/MotorDigest.java:123 | `"a   b\n\tc "` collapses to `"a b c "` |
| CommentExamples.CollapseExample | src/net/sf/openrocket/motor/MotorDigest.java:123 | `"  a   b\n\tc "` collapses to `" a b c "` |
| CommentExamples.NormalizeExample | src/net/sf/openrocket/motor/MotorDigest.java:123 | `"  a   b\n\tc "` normalises to `"a b c"` |
| CommentExamples.WhitespaceInsensitive | src/net/sf/openrocket/motor/MotorDigest.java:122-139 | `digestComment("  a   b\n\tc ")` equals `digestComment("a b c")` |

## Left out

- The MD5 computation (`MessageDigest`, RFC 1321) is a function parameter of the model, so nothing is assumed about it beyond being a function of the bytes fed. `TextUtil.hexString` (lines 107 and 138) is not part of this model and is a parameter in the same way.
- The UTF-8 encoding of the comment (`getBytes("UTF-8")`, line 133) is a function parameter. The `UnsupportedEncodingException` path (lines 134-136) is a library failure and is left out.
- The `NoSuchAlgorithmException` paths of `MessageDigest.getInstance` (lines 48-52 and 126-130) are library failures that the model does not have.
- IEEE double arithmetic (`next` at lines 96-98, `v *= multiplier`, `Math.round` and the `(int)` cast at lines 83-87) is not interpreted. These operations are opaque function parameters bundled in `Motor.DoubleOps`, applied in the source's order. Nothing is proved about rounding, about `Math.round` saturating at the range of `long`, about the `(int)` cast keeping only the low 32 bits of that `long` (so that, say, 3000000000 becomes -1294967296), or about the value of `EPSILON`.
- Null arguments are not modelled: `values` is a sequence and cannot be null. In Java, `update(type, (int[]) null)` sets `lastOrder` (line 63) and feeds `bytes(order)` (line 66) before it throws `NullPointerException` at `values.length` (line 69), so that failing call leaves the builder changed. A null comment in `digestComment` throws at line 123.
- A Java `String` may hold unpaired surrogate code units, which a Dafny `string` cannot represent; the comment model covers only strings made of whole characters.
- Motor.MotorDigest.GetDigest: does not model that `digest()` resets the Java hash accumulator. In the model `fed` keeps every accepted byte, so after an `update` that follows `getDigest` the model's `fed` is not what the reset accumulator holds. The code does not forbid that call sequence, and the model accepts it too.
- Java's `byte` is signed. The model keeps the same eight bits as an unsigned octet 0..255, which is what the hash sees.
- Exception messages are reduced to their data: the data type and the watermark for the out-of-order `update`, and a bare `IllegalState` for the second `getDigest`.
- An `int[]` longer than 2^31 - 1 cannot exist in Java. The model's `IntArray` type has the same bound, so `values.length` is always an `int`.
- `MotorPrinter` (a command-line tool that prints motor data and digests) is file I/O and formatting glue and is not part of this model.
