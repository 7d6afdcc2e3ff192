# Raster-header probing, tile fetching, Sentinel-2 time/UTM naming and datacube file grouping

This project is a Dafny model of four small cores of a collection of
Python raster tools.

- **The TIFF header parser** (`tifprobe`). It takes a byte buffer, which
  may be only a prefix of a file. It detects the byte order and checks the
  8-byte image file header. It reads the image file directory: an entry
  count, then 12-byte entries. It turns each entry into a tag, either with
  its value inline or with the region of the file that holds the value.
  Out-of-line values whose bytes are in the buffer are decoded: ASCII text,
  or arrays of words byte-swapped to the host's order. The tags are kept in
  an insertion-ordered map keyed by name. A fixed list of keys of interest
  is projected into `info`. The layout follows section 2 of TIFF 6.0, with
  the code's own departures:
  - the big-endian mark is looked for in bytes 2-3;
  - a value is inline only when it is a single item of at most 4 bytes;
  - ASCII values lose their last two bytes.
- **The tile fetcher** (`s3fetch`). It covers:
  - the `Range` request for a half-open byte range;
  - the bucket/key split of an `s3://` URL;
  - the row-major tile index;
  - the compression and predictor checks that come before a tile is
    fetched;
  - the tile's byte range, taken from `TileOffsets`/`TileByteCounts`;
  - the tile decoded as pixels, which fails with a ValueError whenever the
    file's byte order is not the host's: the in-place byte swap would
    write to a read-only view of the decompressed bytes;
  - the stream procedures that write result `idx` into slot `idx` of
    caller-owned storage.

  The object store, `zlib.decompress` and `sys.byteorder` are the fields of
  an `Env` value. The stream procedures are methods over Dafny arrays.
- **The Sentinel-2 geomedian job's naming** (`s2gm`). It covers
  `month_range` and `season_range` as (year, month) boundaries, and the
  pair `utm_key` / `utm_zone_to_epsg` between EPSG codes and UTM zone
  names.
- **The datacube file lister** (`dc_tools/app.py`). It covers:
  - the grouper closure, as a class whose method updates its dictionary;
  - the listing loop of `process_one`, with its `stacked_only` filter and
    the display of `file:` URIs;
  - the cursor names made by `random_string`.

Modules:

- `Base`: `Option`, `Result`, the Python exceptions as an `Error` type,
  bytes, and Python's negative-index rule.
- `Text`: decimal and hex text, Python's `int()`, `str.split`,
  `str.lstrip` and ASCII lower-casing.
- `OrderedMaps`: a dictionary that remembers insertion order.
- `ByteWords`: words read from bytes in either byte order, and byte
  swapping.
- `Urls`: the parts of `urllib.parse.urlsplit` that are used.
- `TiffTables`: the type table, the tag catalogue, the keys of interest
  and the item sizes of `array` type codes.
- `TifProbe` and `TifProbeSample`: the parser, and the sample header of
  the parser's test.
- `S3Fetch`, `S2gm` and `DcTools`: the other three cores.

## Model

| member | source | states |
|---|---|---|
| Base.PySlot | s3_raster_io/s3fetch.py:67-68 | a Python index `i` into a list of `len` items is valid just when `-len <= i < len`, and names item `i` or `len + i` |
| Text.NatToDecimal | s3_raster_io/tifprobe.py:201-202 | `'%d'` of a natural number is a non-empty run of digits with no leading zero |
| Text.DecimalRoundTrip | s3_raster_io/tifprobe.py:201-202 | reading back the decimal text of `n` gives `n` |
| Text.IntToDecimalValue | s3_raster_io/s3fetch.py:32 | `'{:d}'` of an integer is a run of digits whose decimal value is the integer, after a '-' when it is negative |
| Text.Pad2 | k8s-dask/code/s2gm.py:85-87 | `'{:02d}'` has at least two characters; for `i >= 0` they are digits whose value is `i`, and from 10 on it is plain `'%d'` |
| Text.Hex4 | dc-tools/dc_tools/app.py:10 | `'{:04x}'` of a 16-bit value is four lower-case hex digits whose value is that number |
| Text.HexDigitValue | dc-tools/dc_tools/app.py:10 | each hex digit reads back as the nibble it was made from |
| Text.DropUnderscores | k8s-dask/code/s2gm.py:105 | removing `int()`'s digit-group underscores leaves only digits and changes plain digits not at all |
| S2gm.ParseIntOfDigits | k8s-dask/code/s2gm.py:105-107 | `int()` of a non-empty run of ASCII digits is their decimal value when there are at most 4300 of them, and the ValueError the `except` turns into `None` when there are more |
| Text.BeforeFirst | dc-tools/dc_tools/app.py:43 | `s.split(c)[0]` is the longest prefix of `s` without `c`, and is followed by `c` when shorter than `s` |
| Text.AfterFirst | dc-tools/dc_tools/app.py:43 | the text after the first `c` exists just when `c` occurs, and `s` is the prefix, `c` and that text |
| Text.SplitJoined | dc-tools/dc_tools/app.py:43 | splitting `x + c + y` with `c` not in `x` gives back `x` and `y` |
| Text.LStrip | s3_raster_io/s3fetch.py:31 | `lstrip(c)` removes exactly the leading run of `c` |
| Text.LowerAscii | k8s-dask/code/s2gm.py:46 | `lower()` keeps the length and lower-cases each character |
| Text.LowerAsciiIdempotent | k8s-dask/code/s2gm.py:46 | lower-casing twice is lower-casing once |
| OrderedMaps.Put | s3_raster_io/tifprobe.py:252 | `d[k] = v` maps `k` to `v`; a new key goes to the end of the order, a known key keeps its place |
| OrderedMaps.ValuesOfPut | dc-tools/dc_tools/app.py:55-58 | `d.values()` after `d[k] = v` gains `v` at the end for a new key, and has `v` in the old key's place otherwise |
| OrderedMaps.KeyCount | s3_raster_io/tifprobe.py:242-252 | an ordered map has as many keys in its order as entries |
| ByteWords.Reverse | s3_raster_io/tifprobe.py:194-195 | reversing the bytes of a word puts byte `i` at position `len - 1 - i` |
| ByteWords.ReverseReverse | s3_raster_io/tifprobe.py:194-195 | reversing twice is the identity |
| ByteWords.EncodeDecode | s3_raster_io/tifprobe.py:191-192 | a word's bytes are recovered from its value |
| ByteWords.DecodeEncode | s3_raster_io/tifprobe.py:191-192 | a word's value is recovered from its bytes |
| ByteWords.SwapWordTwice | s3_raster_io/tifprobe.py:194-195 | swapping the bytes of a word twice gives the word back |
| ByteWords.SwapDecode | s3_raster_io/tifprobe.py:191-195 | swapping a word read in one byte order gives the word read in the other |
| ByteWords.FromBytesCount | s3_raster_io/tifprobe.py:191-192 | `frombytes` of `n * k` bytes gives `n` items of `k` bytes |
| ByteWords.SwapAll | s3_raster_io/tifprobe.py:194-195 | `byteswap()` swaps every item and keeps the count |
| ByteWords.SwapAllTwice | s3_raster_io/tifprobe.py:194-195 | `byteswap()` twice is the identity |
| ByteWords.SwapFromBytes | s3_raster_io/tifprobe.py:191-195 | items read in host order and then swapped are the items read in the other byte order |
| TiffTables.TypeInfo | s3_raster_io/tifprobe.py:26-39 | the type table knows exactly the type ids 1-12, each with an item size of 1, 2, 4 or 8 |
| TiffTables.ArrayItemSize | s3_raster_io/tifprobe.py:188-192 | an `array` type code's item size is 1, 2, 4 or 8 bytes |
| Urls.AfterScheme | s3_raster_io/s3fetch.py:29 | `urlsplit` leaves a suffix of the URL once the scheme is removed |
| Urls.FirstOfAny | s3_raster_io/s3fetch.py:29-30 | the network location ends at the first '/', '?' or '#' |
| Urls.SchemeRemoved | s3_raster_io/s3fetch.py:29 | a valid scheme and ':' are removed, leaving the rest |
| Urls.NetlocOfBucket | s3_raster_io/s3fetch.py:29-31 | `//bucket/key` has network location `bucket` and path `/key` |
| Urls.Scheme | dc-tools/dc_tools/app.py:131-132 | a non-empty scheme is one that `urlsplit` removes from the URL |
| TifProbe.U16 | s3_raster_io/tifprobe.py:236 | a `H` field is below 2^16 |
| TifProbe.U32 | s3_raster_io/tifprobe.py:232 | an `I` field is below 2^32 |
| TifProbe.DirectoryEntryAt | s3_raster_io/tifprobe.py:239-240 | entry `i` of the directory lies within the buffer and is the `HHII` record at `offset + 2 + 12 * i` |
| TifProbe.CheckByteOrder | s3_raster_io/tifprobe.py:158-166 | little iff bytes 0-1 are "II"; otherwise big iff bytes 2-3 are "MM"; otherwise "Not a TIFF header"; under 4 bytes a `struct.error` |
| TifProbe.ProcessTag | s3_raster_io/tifprobe.py:200-222 | the catalogue name or `Tag_<id>`; for a known type the value is inline iff it is one item of at most 4 bytes, otherwise region `[off, off + count * size)` with the count, so exactly one is set; an unknown type is "UNKNOWN" with no format, value or region |
| TifProbe.WithValueLaws | s3_raster_io/tifprobe.py:15-18 | a second `with_x(value=…)` overrides the first, and replacing a value with itself changes nothing |
| TifProbe.ResolveKeepsFields | s3_raster_io/tifprobe.py:244-250 | resolving a tag keeps its name, type, format, region and id from `process_tag`, and keeps an inline value |
| TifProbe.ByteSwap | s3_raster_io/tifprobe.py:194-195 | in place, the array becomes its old contents with every item swapped |
| TifProbe.ExtractTagData | s3_raster_io/tifprobe.py:177-197 | the decoded value agrees with the value-level decoding: `None` past the buffer, ASCII text, `None` for a non-typecode format, or the array items read as unsigned words, swapped when the byte orders differ |
| TifProbe.Resolve | s3_raster_io/tifprobe.py:243-250 | a resolved entry keeps its tag's name and id |
| TifProbe.CollectFrom | s3_raster_io/tifprobe.py:242-252 | the tag collection stays a well-formed ordered map |
| TifProbe.HeaderInfo | s3_raster_io/tifprobe.py:254-255 | a parsed header's `info` has exactly the keys of interest, each holding the value of the tag of that name, or `None` when the directory has no such tag |
| TifProbe.HdrFromBytes | s3_raster_io/tifprobe.py:225-259 | the loop that builds the tags, overwriting by name, gives the header of the value-level parser |
| TifProbe.ResolveEntry | s3_raster_io/tifprobe.py:244-250 | one pass of the loop body (`process_tag`, the in-buffer check, `extract_tag_data`, `with_x`) gives the entry's resolved tag or the decoding error |
| TifProbe.NamesOf | s3_raster_io/tifprobe.py:252 | the set of names holds exactly the names of the entries |
| TifProbe.CollectResolves | s3_raster_io/tifprobe.py:243-252 | a successful collection resolved every entry |
| TifProbe.CollectKeys | s3_raster_io/tifprobe.py:242-252 | a collection keeps the earlier keys in front and ends with exactly the earlier names plus the entries' names |
| TifProbe.CollectLastWins | s3_raster_io/tifprobe.py:252 | each name holds the tag resolved from the last entry of that name |
| TifProbe.CollectUntouched | s3_raster_io/tifprobe.py:252 | a name no entry carries keeps its earlier tag |
| TifProbe.DirectoryEntries | s3_raster_io/tifprobe.py:236-240 | the entry count is the `H` at the directory offset |
| TifProbe.HeaderShape | s3_raster_io/tifprobe.py:225-259 | a parsed header passed the byte-order and magic-42 checks, its tags are collected from every directory entry, and its `info` is their projection |
| TifProbe.CollectedNames | s3_raster_io/tifprobe.py:242-252 | tags collected from scratch are keyed by exactly the entries' names, each listed once |
| TifProbe.HeaderTagNames | s3_raster_io/tifprobe.py:239-252 | a parsed header has one tag per distinct directory entry name |
| TifProbe.HeaderLastWins | s3_raster_io/tifprobe.py:242-252 | in a parsed header a later entry of the same name replaces an earlier one |
| TifProbe.DirectoryMustFit | s3_raster_io/tifprobe.py:236-240 | once the file header checks out, `struct.error` happens exactly when the buffer is too short for the entry count or the entries |
| TifProbe.ParseSucceeds | s3_raster_io/tifprobe.py:225-259 | an accepted byte order, magic 42 and a directory that fits give a header in that byte order exactly when every entry resolves |
| TifProbe.WrongMagicRejected | s3_raster_io/tifprobe.py:232-234 | a magic number other than 42 is "Not a TIFF header" |
| TifProbe.BigEndianNeverParses | s3_raster_io/tifprobe.py:158-166 | as written, every header that parses is little-endian |
| TifProbe.StandardBigEndianRejected | s3_raster_io/tifprobe.py:158-166 | as written, a standard big-endian file ("MM", then 42) is "Not a TIFF header" |
| TifProbe.CheckByteOrderIntended | s3_raster_io/tifprobe.py:158-166 | the intended check: little iff bytes 0-1 are "II", big iff bytes 0-1 are "MM" |
| TifProbe.ParseHeaderIntended | s3_raster_io/tifprobe.py:225-226 | a header parsed with the intended check reports the byte order that check found |
| TifProbe.IntendedAcceptsBothOrders | s3_raster_io/tifprobe.py:225-234 | with the intended check both standard preambles pass the file header checks in their own byte order |
| TifProbe.IntendedAgreesOnLittleEndian | s3_raster_io/tifprobe.py:158-166 | on little-endian files the intended and the written parser agree |
| TifProbe.SubstringAt | s3_raster_io/tifprobe.py:188 | a string occurring at some position of `array.typecodes` passes the `in` test |
| TifProbe.NoDoubleI | s3_raster_io/tifprobe.py:188 | a string with no two consecutive 'I's does not contain "II" |
| TifProbe.RationalIsNotATypecode | s3_raster_io/tifprobe.py:188-189 | "II" is not in `array.typecodes`, so rationals are never decoded |
| TifProbe.TypecodeSizes | s3_raster_io/tifprobe.py:26-39 | every single-letter format of the type table is an array type code whose item size is the table's |
| TifProbe.ExtractedAscii | s3_raster_io/tifprobe.py:185-186 | an ASCII value in the buffer is its bytes minus the last two, or a `UnicodeDecodeError` |
| TifProbe.ExtractedRational | s3_raster_io/tifprobe.py:188-189 | values of the two rational types stay undecoded |
| TifProbe.ExtractedWords | s3_raster_io/tifprobe.py:191-197 | other out-of-line values are `count` unsigned items read in the file's byte order, whatever the host's |
| TifProbe.ResolveErrors | s3_raster_io/tifprobe.py:243-250 | resolving an entry fails only on a non-ASCII byte in an ASCII value |
| TifProbe.TruncatedValueStaysUnresolved | s3_raster_io/tifprobe.py:246-250 | a value past the end of a truncated buffer leaves its tag with its region and no value, without failing |
| TifProbe.CollectFails | s3_raster_io/tifprobe.py:243-252 | the collection fails iff some entry fails to resolve |
| TifProbe.CollectErrors | s3_raster_io/tifprobe.py:243-252 | a failed collection carries a `UnicodeDecodeError` |
| TifProbe.ParseWithOrderErrors | s3_raster_io/tifprobe.py:232-252 | once the order is known, the parser fails only with a `struct.error`, "Not a TIFF header" or a `UnicodeDecodeError`, and never with "Not a TIFF header" when the magic number is 42 |
| TifProbe.ParseErrors | s3_raster_io/tifprobe.py:225-259 | `hdr_from_bytes` fails only with a `struct.error`, "Not a TIFF header" or a `UnicodeDecodeError` |
| TifProbe.SyntheticNamesDistinct | s3_raster_io/tifprobe.py:201-202 | distinct uncatalogued ids get distinct `Tag_<id>` names |
| TifProbeSample.SampleFileHeader | s3_raster_io/tifprobe.py:265-272 | the sample is 220 bytes: "II", 42, a directory at offset 8 with 17 entries |
| TifProbeSample.SampleEntry | s3_raster_io/tifprobe.py:239-240 | each of the sample's 17 directory entries is the expected record |
| TifProbeSample.SampleDirectory | s3_raster_io/tifprobe.py:236-240 | the sample's directory is its 17 entries |
| TifProbeSample.SampleResolves | s3_raster_io/tifprobe.py:243-250 | every entry of the sample resolves |
| TifProbeSample.SampleParses | s3_raster_io/tifprobe.py:262-276 | the test's sample parses, with byte order little |
| S3Fetch.S3LocationOfUrl | s3_raster_io/s3fetch.py:29-31 | `s3://bucket/key` gives back that bucket and that key |
| S3Fetch.ParseByteRange | s3_raster_io/s3fetch.py:32-33 | a byte range read as section 2.1 of RFC 7233 does has its first position at or before its last |
| S3Fetch.RangeHeaderIsHalfOpen | s3_raster_io/s3fetch.py:32-33 | the header is a valid range iff `0 <= start < stop`, and then names exactly the `stop - start` bytes of [start, stop) |
| S3Fetch.CeilDiv | s3_raster_io/s3fetch.py:47 | `ceil(a / b)` is the fewest multiples of `b` that reach `a` |
| S3Fetch.TileIdx | s3_raster_io/s3fetch.py:45-48 | a tile index exists exactly when `ImageWidth` and `TileWidth` are integers and the tile width is not zero; a zero tile width is a ZeroDivisionError, anything else a TypeError |
| S3Fetch.TilesAcross | s3_raster_io/s3fetch.py:47 | there is at least one tile across unless the image is zero wide |
| S3Fetch.DivModUnique | s3_raster_io/s3fetch.py:48 | a row-major index has one (row, column) pair |
| S3Fetch.TileIdxRowMajor | s3_raster_io/s3fetch.py:45-48 | the index is `row * n + col` with `n` the fewest tiles covering the width; a column inside the row gives back (row, col); no bound is checked |
| S3Fetch.BlockIndex | s3_raster_io/s3fetch.py:59-60 | an int index is used as is; a (row, col) pair becomes `row * tiles_across + col` |
| S3Fetch.Gate | s3_raster_io/s3fetch.py:62-65 | passes iff Compression is 8 or 0x80B2 and Predictor is 1; a bad Compression gives the NotDeflate error even when Predictor is also bad, and only a good Compression with a bad Predictor gives HasPredictor |
| S3Fetch.Subscript | s3_raster_io/s3fetch.py:67-68 | indexing an array or text value succeeds exactly when Python's slot for the index exists, and takes the item there; an out-of-range index is an IndexError, and `None` or a number is a TypeError |
| S3Fetch.TileRange | s3_raster_io/s3fetch.py:67-68 | the tile's offset and byte count are `TileOffsets[i]` and `TileByteCounts[i]`, found exactly when both items are numbers; the offset's lookup error comes first, then the byte count's, then a TypeError |
| S3Fetch.MakePixels | s3_raster_io/s3fetch.py:76-79 | the tile is `TileLength` x `TileWidth` items taken from the front of the buffer, and exists only when the file's byte order is the host's; a numeric shape that fits the buffer in host order always gives it |
| S3Fetch.PixelsInFileOrder | s3_raster_io/s3fetch.py:76-79 | pixels exist only when no swap is needed, and are then the items read in the file's byte order |
| S3Fetch.ForeignOrderFails | s3_raster_io/s3fetch.py:76-79 | when the byte orders differ, `byteswap(inplace=True)` on the read-only view of the decompressed bytes is a ValueError whenever the array could be built, and the buffer's TypeError otherwise |
| S3Fetch.GateBeforeFetch | s3_raster_io/s3fetch.py:56-65 | a header that fails a check gives exactly `Gate`'s error, whatever the object store would serve for the tile |
| S3Fetch.ReadBlockChecks | s3_raster_io/s3fetch.py:51-70 | a successful read passed both checks and found the tile's byte range, then fetched exactly that range |
| S3Fetch.ReadBlockSucceeds | s3_raster_io/s3fetch.py:51-70 | once the header is read, the index resolves, both checks pass and the range is found, the read is the fetch of that range |
| S3Fetch.FetchTileSucceeds | s3_raster_io/s3fetch.py:70-88 | a range the store serves and that inflates gives the raw bytes without a dtype, and with one the pixels with `chunk_size == nbytes` or the pixel error |
| S3Fetch.FetchTileResult | s3_raster_io/s3fetch.py:70-88 | the tile is the range [offset, offset + nbytes) decompressed; with no dtype the header and raw bytes, otherwise the pixels and `chunk_size == nbytes` |
| S3Fetch.FillSlots | s3_raster_io/s3fetch.py:97-100 | running the loop keeps the length of the output list |
| S3Fetch.HeaderStreamProc | s3_raster_io/s3fetch.py:94-100 | the loop writes the caller's list as the slot-by-slot run does and ends with its exception |
| S3Fetch.ReadHeaders | s3_raster_io/s3fetch.py:126-129 | `read_headers` is the run over a list of `None`s, one per URL |
| S3Fetch.FillSucceeds | s3_raster_io/s3fetch.py:97-100 | a run without exception stores each URL's result in its own slot and leaves earlier slots alone |
| S3Fetch.FillFails | s3_raster_io/s3fetch.py:97-100 | a run with an exception ends with the first failing URL's exception; failures are not isolated |
| S3Fetch.FillUntouched | s3_raster_io/s3fetch.py:100 | a slot no item names is never written |
| S3Fetch.ReadHeadersSlots | s3_raster_io/s3fetch.py:94-100 | `read_headers` returns one slot per URL with slot `idx` the header of `urls[idx]`, or raises the first failing URL's exception |
| S3Fetch.BlockFill | s3_raster_io/s3fetch.py:106-110 | the run keeps the number of planes and stats slots |
| S3Fetch.BlockFillCons | s3_raster_io/s3fetch.py:106-110 | a run is its first step followed by the run over the rest |
| S3Fetch.StoreBlock | s3_raster_io/s3fetch.py:107-110 | one turn reads a tile, checks its shape and writes plane `idx` and stats slot `idx` |
| S3Fetch.BlockStreamProc | s3_raster_io/s3fetch.py:103-110 | the loop writes the destination and stats as the slot-by-slot run does and ends with its exception |
| S3Fetch.ReadBlocks | s3_raster_io/s3fetch.py:131-135 | `read_blocks` is the run over the caller's destination and a stats list of `None`s |
| S3Fetch.BlockFillSucceeds | s3_raster_io/s3fetch.py:106-110 | a run without exception read every tile at the destination's shape, wrote tile `idx` to plane `idx` and its stats to slot `idx`, and left other planes alone |
| S3Fetch.BlockFillOverrun | s3_raster_io/s3fetch.py:109 | with fewer planes than URLs a run always ends in an exception |
| S3Fetch.BlockFillFails | s3_raster_io/s3fetch.py:103-110 | a run that raises raises the exception of the first URL whose read fails, whose tile has the wrong shape or whose plane is past the end; every URL before it fits |
| S3Fetch.ReadBlocksSlots | s3_raster_io/s3fetch.py:103-110 | a returning `read_blocks` wrote tile `idx` of `urls[idx]` to plane `idx` and its stats to slot `idx`, at the destination's shape, and nothing past the URLs; a raising one raises the exception of the first failing URL's turn |
| S2gm.FirstOfMonth | k8s-dask/code/s2gm.py:31-32 | a first-of-month date exists iff the year is within 1-9999 and the month within 1-12; otherwise an OverflowError exactly when the year or month lies beyond a C int, else a ValueError |
| S2gm.MonthRange | k8s-dask/code/s2gm.py:15-32 | the failures are a ValueError or an OverflowError |
| S2gm.MonthRangeNegative | k8s-dask/code/s2gm.py:21-22 | months -1 to -12 are month `13 + month` of the year before |
| S2gm.MonthRangeCovers | k8s-dask/code/s2gm.py:24-32 | for a month of 0 or more: defined iff both dates are valid with the stop at most one year on; then it starts on day 1 of (year, month) and covers exactly `n` months |
| S2gm.MonthRangeSpan | k8s-dask/code/s2gm.py:15-32 | any defined range starts on a valid month and covers exactly `n` months; a negative month starts in an earlier year |
| S2gm.SeasonStart | k8s-dask/code/s2gm.py:40-46 | a season is known iff its lower-cased name is djf, mam, jja or son |
| S2gm.UnknownSeasonRejected | k8s-dask/code/s2gm.py:46-48 | a season whose lower-cased name is not djf, mam, jja or son is the ValueError naming it |
| S2gm.SeasonCaseInsensitive | k8s-dask/code/s2gm.py:46 | season names are matched without regard to case |
| S2gm.DjfSpansTheTurnOfYear | k8s-dask/code/s2gm.py:36-49 | DJF of year X runs from December X-1 to the end of February X |
| S2gm.SeasonSpan | k8s-dask/code/s2gm.py:35-49 | a defined season covers three months from its table month, -1 being December of the year before |
| S2gm.MamStartsInFebruary | k8s-dask/code/s2gm.py:40-44 | as written, MAM is February to April, whose initials are not "mam" |
| S2gm.SeasonStartIntended | k8s-dask/code/s2gm.py:40-46 | the intended table knows the same seasons and differs only for MAM |
| S2gm.SeasonRangeIntended | k8s-dask/code/s2gm.py:46-49 | with the intended table an unknown season is still the ValueError naming it |
| S2gm.SeasonNamesItsMonths | k8s-dask/code/s2gm.py:40-44 | with the intended table each season name spells its three months' initials, and only MAM changes |
| S2gm.UtmZone | k8s-dask/code/s2gm.py:77-82 | a code is a UTM code iff it is in 32601-32660 (N) or 32701-32760 (S); the zone is 1-60 and code = base + zone |
| S2gm.UtmKeyOfTupleValue | k8s-dask/code/s2gm.py:72-87 | a tuple of fewer than three items is rejected; otherwise the key is that of its code, followed by its two tile numbers padded to two digits, and exists iff the code has a key |
| S2gm.UtmKeyShape | k8s-dask/code/s2gm.py:77-85 | `utm_key` is defined exactly on the UTM codes and gives two zone digits and the hemisphere letter |
| S2gm.UtmKeyWithTile | k8s-dask/code/s2gm.py:84-87 | a tile index appends `_xx_yy` with two-digit padding |
| S2gm.UtmZoneToEpsgAccepts | k8s-dask/code/s2gm.py:95-115 | accepted iff at least two characters, an S/N suffix in either case and an integer in 0-60 before it; the result is base + number; a number `int()` cannot read (including one of more than 4300 digits) is a TypeError, any other rejection the ValueError naming the zone |
| S2gm.UtmZoneOfKey | k8s-dask/code/s2gm.py:98-115 | two digits naming a zone up to 60, then a hemisphere letter, give that letter's base code plus the zone |
| S2gm.UtmZoneExamples | k8s-dask/code/s2gm.py:91-94 | "56S" is 32756 and "55N" is 32655 |
| S2gm.SameNumberSameCode | k8s-dask/code/s2gm.py:98-115 | two zones with the same number and equivalent suffixes are accepted alike with the same code |
| S2gm.UtmSuffixCaseInsensitive | k8s-dask/code/s2gm.py:98-99 | the hemisphere letter may be in either case |
| S2gm.UtmRoundTrip | k8s-dask/code/s2gm.py:77-115 | `utm_zone_to_epsg(utm_key(e)) == e` for every UTM code `e` |
| S2gm.ZoneZeroAccepted | k8s-dask/code/s2gm.py:109-115 | as written, "0N" gives 32600, a code `utm_key` rejects |
| S2gm.UtmZoneToEpsgIntended | k8s-dask/code/s2gm.py:90-115 | with zones 1-60 every accepted zone gives the same code as the written function |
| S2gm.IntendedZonesRoundTrip | k8s-dask/code/s2gm.py:77-115 | with zones 1-60 the two functions are inverse on the UTM codes, both ways |
| DcTools.RandomString | dc-tools/dc_tools/app.py:9-10 | the name is the prefix followed by four lower-case hex digits |
| DcTools.RandomStringDecodes | dc-tools/dc_tools/app.py:159-165 | the four digits read back as the bits drawn, so two names with one prefix differ iff the draws differ |
| DcTools.GroupStep | dc-tools/dc_tools/app.py:42-53 | one record fails the assertion iff its file is known with a different cell |
| DcTools.GroupAll | dc-tools/dc_tools/app.py:121-122 | feeding the records keeps the dictionary well formed |
| DcTools.Grouper.constructor | dc-tools/dc_tools/app.py:36-37 | a new grouper has an empty dictionary and has been fed nothing |
| DcTools.Grouper.DoGroup | dc-tools/dc_tools/app.py:42-53 | a record is added as one grouping step; a failed assertion leaves the dictionary as it was |
| DcTools.Grouper.Proc | dc-tools/dc_tools/app.py:55-57 | `proc()` returns the groups of the records fed, in first-seen order, and changes nothing |
| DcTools.FirstSeen | dc-tools/dc_tools/app.py:45-50 | each key once, and only the keys present |
| DcTools.FirstSeenOrder | dc-tools/dc_tools/app.py:45-50 | the keys come in the order of their first occurrence among the records |
| DcTools.FirstWith | dc-tools/dc_tools/app.py:45-50 | the first record of a key has that key |
| DcTools.FirstWithPrefix | dc-tools/dc_tools/app.py:45-52 | a record of a key means a first record of it, in the same cell when the records are consistent |
| DcTools.GroupAllSucceeds | dc-tools/dc_tools/app.py:42-53 | grouping succeeds iff records sharing a file share a cell, and otherwise fails with the assertion |
| DcTools.GroupKeysFirstSeen | dc-tools/dc_tools/app.py:45-57 | the groups are keyed by file, in the order files were first seen |
| DcTools.GroupContents | dc-tools/dc_tools/app.py:42-53 | each group has its file, the first record's cell and product, and every dataset of that file in arrival order |
| DcTools.DatasetsWithout | dc-tools/dc_tools/app.py:42-53 | a file with no record has no datasets |
| DcTools.TotalReplace | dc-tools/dc_tools/app.py:53 | replacing a group changes the total by the change in its size |
| DcTools.TotalAppend | dc-tools/dc_tools/app.py:47-50 | adding a group adds its size to the total |
| DcTools.GroupSizesSum | dc-tools/dc_tools/app.py:42-53 | every record lands in exactly one group: the sizes add up to the number of records |
| DcTools.GroupAllFailureSticks | dc-tools/dc_tools/app.py:121-122 | after a failed assertion no later record changes the outcome |
| DcTools.ListGroups | dc-tools/dc_tools/app.py:127-137 | the listing loop lists the groups as the filter says, in order |
| DcTools.FeedRows | dc-tools/dc_tools/app.py:119-122 | feeding the rows one by one to a fresh grouper ends with the groups of all rows in first-seen order, or with the assertion error when a row's cell disagrees with its group |
| DcTools.FailureEndsRun | dc-tools/dc_tools/app.py:51-53 | once a row fails the cell assertion, the whole run fails with that assertion error |
| DcTools.ProcessOne | dc-tools/dc_tools/app.py:117-137 | every row goes to a fresh grouper, then its groups are listed; a failed assertion ends it |
| DcTools.ListingsUnfiltered | dc-tools/dc_tools/app.py:127-137 | without `stacked_only` every group is listed, in order |
| DcTools.ListingsStackedOnly | dc-tools/dc_tools/app.py:127-129 | with `stacked_only` every line is a group of two or more datasets |
| DcTools.ListingsKeepStacked | dc-tools/dc_tools/app.py:127-129 | every group of two or more datasets is listed |
| DcTools.FileUriShownAsPath | dc-tools/dc_tools/app.py:131-135 | a `file://` URI is shown as its path |

## Left out

- The object-store client and its per-thread cache (`get_s3_client`,
  `s3fetch.py:16-25`), `S3TiffReader.__init__`, `warmup` and
  `ParallelStreamProc` (not part of this model). These are network and
  concurrency code. The stream procedures are modelled as one sequential
  run over the items they are given.
- `zlib.decompress`, the object store's `get_object` and `sys.byteorder`
  are fields of an `Env` value. Any failure of theirs is one `Err`.
- numpy: `np.ndarray(..., buffer=bb)` is modelled as `k`-byte unsigned
  items read from the front of the buffer. `dst.dtype` is modelled as the
  item size `k`. Signed and floating-point item types are kept as their
  bit patterns. `dst[idx, :, :] = im` stores the items of plane `idx`. The
  destination's plane shape is given as `rows` x `cols`.
- The timing fields of the stats records (`t_open`, `t_total`, `t0`) and
  the `params` record of `read_blocks`. They are wall-clock values;
  `read_blocks` is modelled as returning the filled stats list.
- The `print` calls (`tifprobe.py:237`, and the column formatting of
  `app.py:137`). `process_one` returns its lines as `Listing` values
  holding product, cell, count and the group's URI; `Listing.Uri()` is
  the file column the line would show. The progress dots on standard error are
  left out too.
- `slurp`, the click commands, the psycopg2 queries (`get_managed_products`,
  `mk_location_query`) and the `*all*` product loop. The rows of the
  location query are the input of `ProcessOne`.
- In s2gm.py: `transform_to_yaml_text` (floating-point formatting),
  `mk_utm_gs` (grid geometry), `to_object`, and the `mk_task`, template and
  tile-listing code that follows `utm_zone_to_epsg`.
- The other files of the repository: the statistics, geometry, plotting,
  GDAL wrappers, indexing tools, the older HTTP fetcher and the `setup.py`
  files. They are not part of this model.
- `urllib.parse` is modelled only in what these calls use: a scheme of
  ASCII letters, digits, '+', '-' and '.' starting with a letter; the
  network location after `//` up to the first '/', '?' or '#'; the path
  up to '?' or '#'. Control-character stripping, IPv6 checks, NFKC
  checks and `;params` are not modelled.
- `int()` is modelled with surrounding `str.isspace` whitespace, a sign,
  digit groups joined by single underscores, and leading zeros. Decimal
  digits outside ASCII are not modelled.
- `str.lower()` is modelled on ASCII letters. No other character
  lower-cases into one of the four season names, so season lookup is
  unaffected.
- `datetime` values are kept as (year, month) pairs. The end of a range
  is the first day of its stop month, read as one microsecond earlier.
  `MonthRange` recurses on negative months as the code does. The Python
  recursion limit, hit only for months below about -12000, is not
  modelled.
- `have_bytes_for_tag`'s `buffer is None` case is not modelled.
  `hdr_from_bytes` always passes a buffer.
- `extract_tag_data`'s `assert tag.region is not None` is a precondition
  of `ExtractTagData`. The only caller checks it first.
- The tags' `region` is kept as `(start, nbytes, count)` rather than a
  `slice`. The unknown-type item size of -1 is never used and is not kept.
- `proc(*args)` is modelled as two methods: `Proc()` for the call with no
  arguments, `DoGroup` for a record. A call with the wrong number of
  arguments (a TypeError) is not modelled. `proc()` returns the groups
  themselves, which later records may still extend; `Proc` returns their
  values at the time of the call.
- Running with `python -O`, which removes the cell assertion of
  `_do_group` and the shape assertion of `block_stream_proc`, is not
  modelled.
- `random.getrandbits(16)` is the parameter `bits` of `RandomString`.
- DcTools.RandomStringDecodes: the test's `s1 != s2` holds only when the two
  random draws differ (a 1 in 65536 chance of failing). The lemma states
  exactly that instead of the unconditional inequality.
- TifProbe.ExtractTagData: arrays of the signed and floating-point types
  (6-9, 11 and 12, typecodes b, h, i, f and d) are returned as the unsigned
  bit patterns of their items, not as the negative integers or floats
  `array` gives. A negative SLONG TileOffsets item, for instance, stays a
  large unsigned number. Floating point is outside the model.
- TifProbe.ExtractedWords: states the same unsigned reading for every array
  type, so it says nothing about the sign or floating-point value of items
  of types 6-9, 11 and 12.
- Text.ParseInt: `int()`'s digit limit is the default 4300 of
  `sys.get_int_max_str_digits()`. A limit changed with
  `sys.set_int_max_str_digits` or `PYTHONINTMAXSTRDIGITS`, and the
  unlimited conversion of Pythons before the limit was introduced, are
  not modelled.
- S3Fetch.CeilDiv: `math.ceil` of a float quotient is modelled as exact
  integer ceiling division. This is exact for the 32-bit sizes a TIFF
  header holds.

## Findings

| source | as written | input that shows it | evidently intended | confidence | as-written member | corrected member |
|---|---|---|---|---|---|---|
| s3_raster_io/tifprobe.py:158-166 | the big-endian mark "MM" is looked for in bytes 2-3, so a big-endian byte order is only reported when the magic number field is 0x4D4D, and the 42 check then fails | a standard big-endian header `4D 4D 00 2A 00 00 00 08` gives "Not a TIFF header" | "MM" in bytes 0-1, as section 2 of TIFF 6.0 states | not executed | TifProbe.StandardBigEndianRejected | TifProbe.IntendedAcceptsBothOrders |
| k8s-dask/code/s2gm.py:40-44 | the season "mam" starts at month 2 | `season_range(2020, 'mam')` spans February to April 2020 | month 3, so that MAM is March, April and May as for the other three seasons | not executed | S2gm.MamStartsInFebruary | S2gm.SeasonNamesItsMonths |
| k8s-dask/code/s2gm.py:109-115 | the zone number is checked against 0-60 | `utm_zone_to_epsg('0N')` gives 32600, which `utm_key` rejects | 1-60, as the error message says | not executed | S2gm.ZoneZeroAccepted | S2gm.IntendedZonesRoundTrip |

Apart from the lines under "## Left out", the rest of the model follows
the code as written. `S3Fetch.ReadHeader`
parses with `TifProbe.ParseHeader`, because `tif_read_header` calls
`hdr_from_bytes` as it stands. `TifProbe.IntendedAgreesOnLittleEndian`
shows the corrected parser agrees with it on every file the written one
accepts.
