/**
 * The two files of an archived chunk: the compressed blocks one after the other, and an
 * index of fixed-size big-endian records locating each of them.
 */
module ColdFiles {
  import opened Basics

  const TWO_32: nat := 0x1_0000_0000
  const TWO_64: nat := 0x1_0000_0000_0000_0000

  /** Rust's `as u32`. */
  function AsU32(n: nat): (r: nat)
    ensures r < TWO_32 && (n < TWO_32 ==> r == n)
  {
    n % 0x1_0000_0000
  }

  /** A u64 sum that wraps. */
  function WrappingAdd(a: nat, b: nat): (r: nat)
    ensures r < TWO_64 && (a + b < TWO_64 ==> r == a + b)
  {
    (a + b) % 0x1_0000_0000_0000_0000
  }

  // ----- big-endian integers -----

  function BigEndian(n: nat, width: nat): (r: bytes)
    ensures |r| == width
  {
    if width == 0 then [] else BigEndian(n / 256, width - 1) + [n % 256]
  }

  function FromBigEndian(raw: bytes): nat {
    if raw == [] then 0 else FromBigEndian(raw[..|raw| - 1]) * 256 + raw[|raw| - 1]
  }

  function Power256(width: nat): nat {
    if width == 0 then 1 else 256 * Power256(width - 1)
  }

  lemma {:induction false} BigEndianRoundTrip(n: nat, width: nat)
    requires n < Power256(width)
    ensures FromBigEndian(BigEndian(n, width)) == n
  {
    if width == 0 {
    } else {
      BigEndianRoundTrip(n / 256, width - 1);
      assert BigEndian(n, width)[..width - 1] == BigEndian(n / 256, width - 1);
    }
  }

  lemma Regroup(a: nat, p: nat, f: nat, l: nat)
    ensures (a * p + f) * 256 + l == a * (256 * p) + (f * 256 + l)
  {
  }

  /** The most significant byte comes first. */
  lemma {:induction false} MostSignificantFirst(raw: bytes)
    requires raw != []
    ensures FromBigEndian(raw) == raw[0] * Power256(|raw| - 1) + FromBigEndian(raw[1..])
  {
    if |raw| == 1 {
      assert raw[..0] == [] && raw[1..] == [];
    } else {
      var init, last := raw[..|raw| - 1], raw[|raw| - 1];
      MostSignificantFirst(init);
      assert raw[1..][..|raw| - 2] == init[1..] && raw[1..][|raw| - 2] == last;
      Regroup(raw[0], Power256(|raw| - 2), FromBigEndian(init[1..]), last);
    }
  }

  lemma Widths()
    ensures Power256(4) == TWO_32 && Power256(8) == TWO_64
  {
    assert Power256(2) == 256 * 256;
    assert Power256(4) == 256 * (256 * Power256(2));
    assert Power256(6) == 256 * (256 * Power256(4));
    assert Power256(8) == 256 * (256 * Power256(6));
  }

  // ----- index records -----

  datatype IndexRecord = IndexRecord(number: nat, offset: nat, length: nat)

  function EncodeRecord(record: IndexRecord): (r: bytes)
    ensures |r| == 20
  {
    BigEndian(record.number, 8) + BigEndian(record.offset, 8) + BigEndian(record.length, 4)
  }

  function DecodeRecord(raw: bytes): IndexRecord
    requires |raw| == 20
  {
    IndexRecord(FromBigEndian(raw[..8]), FromBigEndian(raw[8..16]), FromBigEndian(raw[16..]))
  }

  lemma RecordRoundTrip(record: IndexRecord)
    requires record.number < TWO_64 && record.offset < TWO_64 && record.length < TWO_32
    ensures DecodeRecord(EncodeRecord(record)) == record
  {
    var raw := EncodeRecord(record);
    Widths();
    BigEndianRoundTrip(record.number, 8);
    BigEndianRoundTrip(record.offset, 8);
    BigEndianRoundTrip(record.length, 4);
    assert raw[..8] == BigEndian(record.number, 8);
    assert raw[8..16] == BigEndian(record.offset, 8);
    assert raw[16..] == BigEndian(record.length, 4);
  }

  // ----- file contents -----

  /** The data file: all blobs end to end. */
  function Concat(blobs: seq<bytes>): bytes {
    if blobs == [] then [] else Concat(blobs[..|blobs| - 1]) + blobs[|blobs| - 1]
  }

  /** The offset the writer records for blob `i`: a u64 sum of lengths cut to u32. */
  function Offset(blobs: seq<bytes>, i: nat): (r: nat)
    requires i <= |blobs|
    ensures r < TWO_64
  {
    if i == 0 then 0 else WrappingAdd(Offset(blobs, i - 1), AsU32(|blobs[i - 1]|))
  }

  function RecordAt(numbers: seq<nat>, blobs: seq<bytes>, i: nat): IndexRecord
    requires i < |blobs| == |numbers|
  {
    IndexRecord(numbers[i], Offset(blobs, i), AsU32(|blobs[i]|))
  }

  /** The bytes of the `i`-th record of an index. */
  function Slot(index: bytes, i: nat): (r: bytes)
    requires 20 * i + 20 <= |index|
    ensures |r| == 20
  {
    index[20 * i..20 * i + 20]
  }

  ghost predicate IsIndex(index: bytes, numbers: seq<nat>, blobs: seq<bytes>) {
    && |numbers| == |blobs| && |index| == 20 * |blobs|
    && (forall i | 0 <= i < |blobs| :: Slot(index, i) == EncodeRecord(RecordAt(numbers, blobs, i)))
  }

  function Blob(codec: Codec, block: Block): bytes {
    codec.compress(codec.encode(block))
  }

  function Blobs(codec: Codec, blocks: seq<Block>): seq<bytes> {
    seq(|blocks|, i requires 0 <= i < |blocks| => Blob(codec, blocks[i]))
  }

  /** `blocks` carry the consecutive numbers `first`, `first + 1`, ... */
  predicate Consecutive(blocks: seq<Block>, first: nat) {
    forall i | 0 <= i < |blocks| :: Numbered(blocks[i], first + i)
  }

  function Numbers(first: nat, count: nat): seq<nat> {
    seq(count, i requires 0 <= i < count => first + i)
  }

  predicate Headed(blocks: seq<Block>) {
    forall i | 0 <= i < |blocks| :: BlockNumber(blocks[i]).Some?
  }

  /** The numbers the blocks carry, whatever they are. */
  function OwnNumbers(blocks: seq<Block>): seq<nat>
    requires Headed(blocks)
  {
    seq(|blocks|, i requires 0 <= i < |blocks| => BlockNumber(blocks[i]).value)
  }

  lemma ConsecutiveNumbers(blocks: seq<Block>, first: nat)
    requires Consecutive(blocks, first)
    ensures Headed(blocks) && OwnNumbers(blocks) == Numbers(first, |blocks|)
  {
    assert forall i | 0 <= i < |blocks| :: Numbered(blocks[i], first + i);
  }

  /** `index` and `data` are the archive of `blocks`, numbered from `first` on. */
  ghost predicate IsArchive(codec: Codec, blocks: seq<Block>, first: nat, index: bytes, data: bytes) {
    && IsIndex(index, Numbers(first, |blocks|), Blobs(codec, blocks))
    && data == Concat(Blobs(codec, blocks))
  }

  /** The sizes an index can represent. */
  predicate Fits(blobs: seq<bytes>) {
    && |Concat(blobs)| < TWO_64
    && (forall i | 0 <= i < |blobs| :: |blobs[i]| < TWO_32)
  }

  /** Writes both temporary files; a block without a header aborts the write. */
  method WriteTempFiles(codec: Codec, blocks: seq<Block>) returns (r: Result<(bytes, bytes), ()>)
    ensures r.Ok? <==> Headed(blocks)
    ensures r.Ok? ==> IsIndex(r.value.0, OwnNumbers(blocks), Blobs(codec, blocks))
    ensures r.Ok? ==> r.value.1 == Concat(Blobs(codec, blocks))
  {
    var index, data: bytes := [], [];
    var offset := 0;
    ghost var numbers: seq<nat> := [];
    ghost var blobs: seq<bytes> := [];
    for i := 0 to |blocks|
      invariant |numbers| == |blobs| == i && |index| == 20 * i
      invariant forall j | 0 <= j < i :: BlockNumber(blocks[j]) == Some(numbers[j])
      invariant forall j | 0 <= j < i :: blobs[j] == Blob(codec, blocks[j])
      invariant offset == Offset(blobs, i) && data == Concat(blobs)
      invariant IsIndex(index, numbers, blobs)
    {
      var number := BlockNumber(blocks[i]);
      if number.None? {
        return Err(());
      }
      var blob := codec.compress(codec.encode(blocks[i]));
      var length := AsU32(|blob|);
      data := data + blob;
      PushRecord(index, numbers, blobs, number.value, blob);
      index := index + EncodeRecord(IndexRecord(number.value, offset, length));
      offset := WrappingAdd(offset, length);
      assert (blobs + [blob])[..i] == blobs;
      numbers, blobs := numbers + [number.value], blobs + [blob];
    }
    r := Ok((index, data));
    assert blobs == Blobs(codec, blocks) && numbers == OwnNumbers(blocks);
  }

  lemma {:induction false} OffsetOfPrefix(blobs: seq<bytes>, blob: bytes, i: nat)
    requires i <= |blobs|
    ensures Offset(blobs + [blob], i) == Offset(blobs, i)
  {
    if i == 0 {
    } else {
      OffsetOfPrefix(blobs, blob, i - 1);
    }
  }

  lemma SlotOfPush(index: bytes, record: bytes, n: nat, i: nat)
    requires |index| == 20 * n && |record| == 20 && i <= n
    ensures Slot(index + record, i) == if i < n then Slot(index, i) else record
  {
  }

  lemma PushRecord(index: bytes, numbers: seq<nat>, blobs: seq<bytes>, number: nat, blob: bytes)
    requires IsIndex(index, numbers, blobs)
    ensures var record := IndexRecord(number, Offset(blobs, |blobs|), AsU32(|blob|));
            IsIndex(index + EncodeRecord(record), numbers + [number], blobs + [blob])
    ensures Offset(blobs + [blob], |blobs| + 1) == WrappingAdd(Offset(blobs, |blobs|), AsU32(|blob|))
  {
    var n := |blobs|;
    OffsetOfPrefix(blobs, blob, n);
    var record := IndexRecord(number, Offset(blobs, n), AsU32(|blob|));
    var raw := EncodeRecord(record);
    forall i | 0 <= i < n + 1
      ensures Slot(index + raw, i) == EncodeRecord(RecordAt(numbers + [number], blobs + [blob], i))
    {
      SlotOfPush(index, raw, n, i);
      OffsetOfPrefix(blobs, blob, i);
      assert RecordAt(numbers + [number], blobs + [blob], i)
          == if i < n then RecordAt(numbers, blobs, i) else record;
    }
  }

  // ----- reading back -----

  /** A loaded index: the bytes mapped from the file, and the range its name announces. */
  datatype MappedIndex = MappedIndex(start: nat, end: nat, mapped: bytes)

  function GetRecord(index: MappedIndex, n: nat): Option<IndexRecord> {
    if !(index.start <= n <= index.end) then None
    else
      var slot := n - index.start;
      if 20 * slot + 20 > |index.mapped| then None
      else Some(DecodeRecord(Slot(index.mapped, slot)))
  }

  datatype ReadError = NoDataFile | ShortDataFile | BadCompression

  /** The compressed bytes of `n`: `None` when the index does not list it. */
  function ReadBlob(index: MappedIndex, data: Option<bytes>, n: nat): Result<Option<bytes>, ReadError> {
    match GetRecord(index, n)
    case None => Ok(None)
    case Some(record) =>
      if data.None? then Err(NoDataFile)
      else if record.offset + record.length > |data.value| then Err(ShortDataFile)
      else Ok(Some(data.value[record.offset..record.offset + record.length]))
  }

  function ReadRaw(codec: Codec, index: MappedIndex, data: Option<bytes>, n: nat)
    : Result<Option<bytes>, ReadError>
  {
    match ReadBlob(index, data, n)
    case Err(e) => Err(e)
    case Ok(None) => Ok(None)
    case Ok(Some(blob)) =>
      match codec.decompress(blob)
      case None => Err(BadCompression)
      case Some(raw) => Ok(Some(raw))
  }

  /** The number has a whole record of 20 bytes in the index. */
  ghost predicate Listed(index: MappedIndex, n: nat) {
    index.start <= n <= index.end && 20 * (n - index.start) + 20 <= |index.mapped|
  }

  /** What the record of a listed number says. */
  ghost function RecordFor(index: MappedIndex, n: nat): IndexRecord
    requires Listed(index, n)
  {
    var at := 20 * (n - index.start);
    IndexRecord(FromBigEndian(index.mapped[at..at + 8]), FromBigEndian(index.mapped[at + 8..at + 16]),
                FromBigEndian(index.mapped[at + 16..at + 20]))
  }

  /**
   * Whatever the files hold, a number reads as nothing exactly if the index does not list it; otherwise as
   * an error exactly if there is no data file, the data file ends before the record does, or the bytes do
   * not decompress; and else as what the bytes of its record decompress to.
   */
  lemma ReadRawIff(codec: Codec, index: MappedIndex, data: Option<bytes>, n: nat)
    ensures var r := ReadRaw(codec, index, data, n);
            && (r == Ok(None) <==> !Listed(index, n))
            && (r == Err(NoDataFile) <==> Listed(index, n) && data.None?)
            && (Listed(index, n) && data.Some? ==>
                  var IndexRecord(_, offset, length) := RecordFor(index, n);
                  if offset + length > |data.value| then r == Err(ShortDataFile)
                  else
                    match codec.decompress(data.value[offset..offset + length])
                    case None => r == Err(BadCompression)
                    case Some(raw) => r == Ok(Some(raw)))
  {
    if Listed(index, n) {
      var at := 20 * (n - index.start);
      var slot := index.mapped[at..at + 20];
      assert slot[..8] == index.mapped[at..at + 8] && slot[8..16] == index.mapped[at + 8..at + 16];
      assert slot[16..] == index.mapped[at + 16..at + 20];
    }
  }

  // ----- round trip -----

  lemma {:induction false} ConcatPrefix(blobs: seq<bytes>, i: nat)
    requires i <= |blobs|
    ensures |Concat(blobs[..i])| <= |Concat(blobs)|
    ensures Concat(blobs)[..|Concat(blobs[..i])|] == Concat(blobs[..i])
  {
    if i == |blobs| {
      assert blobs[..i] == blobs;
    } else {
      var init := blobs[..|blobs| - 1];
      ConcatPrefix(init, i);
      assert init[..i] == blobs[..i];
    }
  }

  /** While the sizes fit, the recorded offsets are the true positions in the data file. */
  lemma {:induction false} OffsetIsPosition(blobs: seq<bytes>, i: nat)
    requires Fits(blobs) && i <= |blobs|
    ensures Offset(blobs, i) == |Concat(blobs[..i])|
  {
    if i == 0 {
    } else {
      OffsetIsPosition(blobs, i - 1);
      assert blobs[..i][..i - 1] == blobs[..i - 1];
      ConcatPrefix(blobs, i);
    }
  }

  /** The recorded slices tile the data file, each holding its own blob. */
  lemma SlicesTile(blobs: seq<bytes>, i: nat)
    requires Fits(blobs) && i < |blobs|
    ensures Offset(blobs, 0) == 0 && Offset(blobs, |blobs|) == |Concat(blobs)|
    ensures Offset(blobs, i + 1) == Offset(blobs, i) + |blobs[i]| <= |Concat(blobs)|
    ensures Concat(blobs)[Offset(blobs, i)..Offset(blobs, i + 1)] == blobs[i]
  {
    assert blobs[..|blobs|] == blobs;
    OffsetIsPosition(blobs, |blobs|);
    OffsetIsPosition(blobs, i);
    OffsetIsPosition(blobs, i + 1);
    ConcatPrefix(blobs, i + 1);
    var upTo := blobs[..i + 1];
    assert upTo[..i] == blobs[..i];
    assert Concat(upTo) == Concat(blobs[..i]) + blobs[i];
    var data, a, b := Concat(blobs), Offset(blobs, i), Offset(blobs, i + 1);
    assert data[a..b] == data[..b][a..];
  }

  lemma RecordOf(codec: Codec, blocks: seq<Block>, first: nat, index: bytes, data: bytes, i: nat)
    requires IsArchive(codec, blocks, first, index, data) && i < |blocks|
    requires first + |blocks| <= TWO_64
    ensures GetRecord(MappedIndex(first, first + |blocks| - 1, index), first + i)
            == Some(RecordAt(Numbers(first, |blocks|), Blobs(codec, blocks), i))
  {
    var record := RecordAt(Numbers(first, |blocks|), Blobs(codec, blocks), i);
    RecordRoundTrip(record);
    assert Slot(index, i) == EncodeRecord(record);
  }

  ghost predicate ReadsBack(codec: Codec, blocks: seq<Block>, first: nat, index: bytes, data: bytes, i: nat)
    requires i < |blocks|
  {
    ReadBlob(MappedIndex(first, first + |blocks| - 1, index), Some(data), first + i)
    == Ok(Some(Blob(codec, blocks[i])))
  }

  lemma RecordedSlice(numbers: seq<nat>, blobs: seq<bytes>, i: nat)
    requires Fits(blobs) && i < |blobs| == |numbers|
    ensures var IndexRecord(_, offset, length) := RecordAt(numbers, blobs, i);
            offset + length <= |Concat(blobs)| && Concat(blobs)[offset..offset + length] == blobs[i]
  {
    SlicesTile(blobs, i);
  }

  lemma SlotReadsBack(codec: Codec, blocks: seq<Block>, first: nat, index: bytes, data: bytes, i: nat)
    requires IsArchive(codec, blocks, first, index, data) && i < |blocks|
    requires first + |blocks| <= TWO_64 && Fits(Blobs(codec, blocks))
    ensures ReadsBack(codec, blocks, first, index, data, i)
  {
    RecordOf(codec, blocks, first, index, data, i);
    RecordedSlice(Numbers(first, |blocks|), Blobs(codec, blocks), i);
  }

  lemma ReadsBackWithin(codec: Codec, blocks: seq<Block>, first: nat, index: bytes, data: bytes, i: nat)
    requires IsArchive(codec, blocks, first, index, data) && i < |blocks|
    requires first + |blocks| <= TWO_64
    ensures ReadsBack(codec, blocks, first, index, data, i) ==> |Blob(codec, blocks[i])| < TWO_32
  {
    RecordOf(codec, blocks, first, index, data, i);
  }

  /**
   * Every archived block reads back as its own compressed bytes exactly when no blob is so long
   * that its length is cut by the u32 field of the index.
   */
  lemma ArchiveReadsBack(codec: Codec, blocks: seq<Block>, first: nat, index: bytes, data: bytes)
    requires IsArchive(codec, blocks, first, index, data)
    requires first + |blocks| <= TWO_64 && |data| < TWO_64
    ensures (forall i | 0 <= i < |blocks| :: ReadsBack(codec, blocks, first, index, data, i))
            <==> (forall i | 0 <= i < |blocks| :: |Blob(codec, blocks[i])| < TWO_32)
  {
    forall i | 0 <= i < |blocks|
      ensures ReadsBack(codec, blocks, first, index, data, i) ==> |Blob(codec, blocks[i])| < TWO_32
      ensures Fits(Blobs(codec, blocks)) ==> ReadsBack(codec, blocks, first, index, data, i)
    {
      ReadsBackWithin(codec, blocks, first, index, data, i);
      if Fits(Blobs(codec, blocks)) {
        SlotReadsBack(codec, blocks, first, index, data, i);
      }
    }
  }

  /** The same through decompression: the reader returns the block's own encoding. */
  lemma ArchiveRoundTrip(codec: Codec, blocks: seq<Block>, first: nat, index: bytes, data: bytes, n: nat)
    requires Faithful(codec)
    requires IsArchive(codec, blocks, first, index, data)
    requires first <= n < first + |blocks| <= TWO_64
    requires Fits(Blobs(codec, blocks))
    ensures ReadRaw(codec, MappedIndex(first, first + |blocks| - 1, index), Some(data), n)
            == Ok(Some(codec.encode(blocks[n - first])))
  {
    SlotReadsBack(codec, blocks, first, index, data, n - first);
  }
}
