/** Fetching TIFF headers and tiles from an object store: the byte-range
    request, the bucket/key split of an `s3://` URL, the tile index, the
    checks made before a tile is fetched, and the loops that write result
    `idx` into slot `idx` of caller-owned storage.  The object-store client,
    `zlib.decompress` and `sys.byteorder` are the fields of an `Env`. */
module S3Fetch {
  import opened Base
  import opened Text
  import opened ByteWords
  import opened TifProbe
  import opened Urls

  // ---------------------------------------------------------------------
  // Collaborators

  /** `s3.get_object(Bucket, Key, Range)['Body'].read()`, `zlib.decompress`
      and `sys.byteorder`.  Any failure of theirs is an `Err`. */
  datatype Env = Env(getObject: (string, string, string) -> Result<seq<byte>>,
                     inflate: seq<byte> -> Result<seq<byte>>,
                     host: ByteOrder)

  // ---------------------------------------------------------------------
  // URLs

  /** `get_byte_range`'s bucket and key: the network location, and the path
      with all its leading '/' removed. */
  function S3Location(url: string): (string, string)
  {
    var (netloc, path) := NetlocAndPath(url);
    (netloc, LStrip(path, '/'))
  }

  lemma UrlAsSchemeAndRest(scheme: string, bucket: string, key: string)
    ensures scheme + "://" + bucket + "/" + key == scheme + [':'] + ("//" + bucket + "/" + key)
  {
  }

  /** `s3://<bucket>/<key>` names bucket `<bucket>` and key `<key>`, for a
      bucket free of '/', '?' and '#' and a key free of '?' and '#' that
      does not itself start with '/'. */
  lemma S3LocationOfUrl(scheme: string, bucket: string, key: string)
    requires IsScheme(scheme)
    requires forall i :: 0 <= i < |bucket| ==> bucket[i] !in {'/', '?', '#'}
    requires '?' !in key && '#' !in key && (key == [] || key[0] != '/')
    ensures S3Location(scheme + "://" + bucket + "/" + key) == (bucket, key)
  {
    var rest := "//" + bucket + "/" + key;
    UrlAsSchemeAndRest(scheme, bucket, key);
    SchemeRemoved(scheme, rest);
    NetlocOfBucket(bucket, key);
    assert ("/" + key)[1..] == key;
  }

  // ---------------------------------------------------------------------
  // Byte ranges

  /** `'bytes={:d}-{:d}'.format(start, stop - 1)`. */
  function RangeHeader(start: int, stop: int): (h: string) {
    "bytes=" + IntToDecimal(start) + "-" + IntToDecimal(stop - 1)
  }

  /** A `Range` header as section 2.1 of RFC 7233 reads a single
      `first-byte-pos "-" last-byte-pos` range: the inclusive positions, or
      `None` when it is not of that form or the last position precedes the
      first. */
  function ParseByteRange(h: string): (r: Option<(nat, nat)>)
    ensures r.Some? ==> r.value.0 <= r.value.1
  {
    if |h| < 6 || h[..6] != "bytes=" then None
    else
      var spec := h[6..];
      match AfterFirst(spec, '-')
      case None => None
      case Some(lastText) =>
        var firstText := BeforeFirst(spec, '-');
        if firstText == [] || !AllDigits(firstText) || lastText == [] || !AllDigits(lastText) then None
        else
          var first, last := DecimalValue(firstText), DecimalValue(lastText);
          if last < first then None else Some((first, last))
  }

  /** The header `get_byte_range` sends asks for exactly the half-open range
      [start, stop): it is a valid range just when that range is non-empty
      and starts at a position, and then it names `stop - start` bytes from
      `start` on. */
  lemma RangeHeaderIsHalfOpen(start: int, stop: int)
    ensures ParseByteRange(RangeHeader(start, stop)).Some? <==> 0 <= start < stop
    ensures 0 <= start < stop ==>
              ParseByteRange(RangeHeader(start, stop)) == Some((start as nat, (stop - 1) as nat))
              && (stop - 1) - start + 1 == stop - start
  {
    if start >= 0 {
      RangeOfNatStart(start, stop);
    } else {
      RangeOfNegativeStart(IntToDecimal(start), IntToDecimal(stop - 1));
    }
  }

  lemma RangeOfNatStart(start: nat, stop: int)
    ensures ParseByteRange(RangeHeader(start, stop)) ==
              if start < stop then Some((start, (stop - 1) as nat)) else None
  {
    var a, b := IntToDecimal(start), IntToDecimal(stop - 1);
    assert RangeHeader(start, stop) == "bytes=" + a + "-" + b;
    DecimalRoundTrip(start);
    RangeOfDigits(a, b);
    if stop - 1 >= 0 {
      DecimalRoundTrip(stop - 1);
    } else {
      assert !IsDigit(b[0]);
    }
  }

  /** A range whose first position is a numeral reads as the two numerals'
      values when the last one is a numeral no smaller than the first. */
  lemma RangeOfDigits(a: string, b: string)
    requires a != [] && AllDigits(a)
    ensures ParseByteRange("bytes=" + a + "-" + b) ==
              if b == [] || !AllDigits(b) || DecimalValue(b) < DecimalValue(a) then None
              else Some((DecimalValue(a), DecimalValue(b)))
  {
    var h := "bytes=" + a + "-" + b;
    assert h[..6] == "bytes=";
    assert h[6..] == a + ['-'] + b;
    assert '-' !in a by {
      forall i | 0 <= i < |a| ensures a[i] != '-' { assert IsDigit(a[i]); }
    }
    SplitJoined(a, '-', b);
  }

  /** A range whose text starts with a minus sign is not a range. */
  lemma RangeOfNegativeStart(a: string, b: string)
    requires a != [] && a[0] == '-'
    ensures ParseByteRange("bytes=" + a + "-" + b) == None
  {
    var h := "bytes=" + a + "-" + b;
    assert h[..6] == "bytes=";
    assert h[6..][0] == '-';
  }

  /** `get_byte_range`: the object-store request for bytes [start, stop). */
  function GetByteRange(env: Env, url: string, start: int, stop: int): Result<seq<byte>> {
    var (bucket, key) := S3Location(url);
    env.getObject(bucket, key, RangeHeader(start, stop))
  }

  /** `tif_read_header`: the first `hdrMaxSz` bytes, parsed. */
  function ReadHeader(env: Env, url: string, hdrMaxSz: int): Result<Header> {
    match GetByteRange(env, url, 0, hdrMaxSz)
    case Err(e) => Err(e)
    case Ok(bytes) => ParseHeader(bytes, env.host)
  }

  // ---------------------------------------------------------------------
  // Tiles

  /** `hdr.info.<key>`: `None` for a key of interest the file lacks. */
  function Info(h: Header, key: string): Option<Value> {
    if key in h.info then h.info[key] else None
  }

  /** `math.ceil(a / b)` for non-negative integers below 2^32, where the
      floating-point quotient is close enough to be exact. */
  function CeilDiv(a: nat, b: nat): (q: nat)
    requires b > 0
    ensures q * b >= a
    ensures q == 0 || (q - 1) * b < a
  {
    var q := (a + b - 1) / b;
    assert a + b - 1 == q * b + (a + b - 1) % b;
    q
  }

  /** `tif_tile_idx`: `row * ceil(ImageWidth / TileWidth) + col`.  Missing
      or non-integer sizes are a TypeError, a zero tile width a
      ZeroDivisionError; neither `row` nor `col` is checked. */
  function TileIdx(h: Header, row: int, col: int): (r: Result<int>)
    ensures r.Ok? <==> IsNumber(Info(h, "ImageWidth")) && IsNumber(Info(h, "TileWidth"))
                       && Info(h, "TileWidth").value.n != 0
    ensures r.Err? ==> r.error in {TypeError, ZeroDivisionError}
    ensures r == Err(ZeroDivisionError) <==> IsNumber(Info(h, "ImageWidth")) && Info(h, "TileWidth") == Some(Scalar(0))
  {
    match (Info(h, "ImageWidth"), Info(h, "TileWidth"))
    case (Some(Scalar(w)), Some(Scalar(tw))) =>
      if tw == 0 then Err(ZeroDivisionError) else Ok(row * CeilDiv(w, tw) + col)
    case _ => Err(TypeError)
  }

  /** A tag value that is a plain number. */
  predicate IsNumber(v: Option<Value>) {
    v.Some? && v.value.Scalar?
  }

  /** The tiles across the image, as `tif_tile_idx` counts them. */
  function TilesAcross(h: Header): (n: nat)
    requires TileIdx(h, 0, 0).Ok?
    ensures n > 0 || Info(h, "ImageWidth").value.n == 0
  {
    CeilDiv(Info(h, "ImageWidth").value.n, Info(h, "TileWidth").value.n)
  }

  lemma {:induction false} MulAtLeast(d: nat, n: nat)
    requires d >= 1
    ensures d * n >= n
  {
    if d > 1 {
      MulAtLeast(d - 1, n);
      assert d * n == (d - 1) * n + n;
    }
  }

  /** Euclidean division has one quotient and one remainder. */
  lemma DivModUnique(i: int, n: int, q: int, r: int)
    requires n > 0 && 0 <= r < n && i == q * n + r
    ensures i / n == q && i % n == r
  {
    var q', r' := i / n, i % n;
    assert i == q' * n + r';
    assert q * n - q' * n == (q - q') * n;
    if q > q' {
      MulAtLeast(q - q', n);
    } else if q < q' {
      assert q' * n - q * n == (q' - q) * n;
      MulAtLeast(q' - q, n);
    }
  }

  /** Tile indexes are row-major: the fewest tiles of `TileWidth` pixels
      that cover `ImageWidth` make a row, and a column inside a row gives
      back its (row, col) pair.  No bound is checked. */
  lemma TileIdxRowMajor(h: Header, row: int, col: int)
    requires TileIdx(h, row, col).Ok?
    ensures TileIdx(h, 0, 0).Ok?
    ensures var n := TilesAcross(h);
      var w, tw := Info(h, "ImageWidth").value.n, Info(h, "TileWidth").value.n;
      && n * tw >= w && (n == 0 || (n - 1) * tw < w)
      && TileIdx(h, row, col).value == row * n + col
      && (0 <= col < n ==> TileIdx(h, row, col).value / n == row && TileIdx(h, row, col).value % n == col)
  {
    var n := TilesAcross(h);
    assert TileIdx(h, row, col).value == row * n + col;
    if 0 <= col < n {
      DivModUnique(row * n + col, n, row, col);
    }
  }

  datatype BlockIdx = Linear(i: int) | RowCol(row: int, col: int)

  /** An int `block_idx` is used as is; a (row, col) pair goes through
      `tif_tile_idx`. */
  function ResolveIdx(h: Header, b: BlockIdx): Result<int>
  {
    match b
    case Linear(i) => Ok(i)
    case RowCol(row, col) => TileIdx(h, row, col)
  }

  const NotDeflate := ValueError("Only support DEFLATE compression (for now)")
  const HasPredictor := ValueError("Do not support horizontal differencing predictor (for now)")

  /** An int block index is used as is; a (row, col) pair is the row-major
      index over `TilesAcross` tiles per row. */
  lemma BlockIndex(h: Header, b: BlockIdx)
    requires ResolveIdx(h, b).Ok?
    ensures b.Linear? ==> ResolveIdx(h, b).value == b.i
    ensures b.RowCol? ==> TileIdx(h, 0, 0).Ok? && ResolveIdx(h, b).value == b.row * TilesAcross(h) + b.col
  {
    if b.RowCol? {
      TileIdxRowMajor(h, b.row, b.col);
    }
  }

  /** The checks before a tile is fetched: DEFLATE compression (code 8 or
      0x80B2), then no predictor (code 1).  A missing tag fails its check. */
  function Gate(h: Header): (r: Option<Error>)
    ensures r.None? <==> Info(h, "Compression") in {Some(Scalar(8)), Some(Scalar(0x80B2))}
                         && Info(h, "Predictor") == Some(Scalar(1))
    ensures r.Some? ==> r.value in {NotDeflate, HasPredictor}
    // Compression is checked first, so it decides the error when both fail
    ensures Info(h, "Compression") !in {Some(Scalar(8)), Some(Scalar(0x80B2))} ==> r == Some(NotDeflate)
    ensures (Info(h, "Compression") in {Some(Scalar(8)), Some(Scalar(0x80B2))}
             && Info(h, "Predictor") != Some(Scalar(1))) ==> r == Some(HasPredictor)
  {
    if Info(h, "Compression") !in {Some(Scalar(8)), Some(Scalar(0x80B2))} then Some(NotDeflate)
    else if Info(h, "Predictor") != Some(Scalar(1)) then Some(HasPredictor)
    else None
  }

  /** An item of a subscripted tag value: a number from an array value, or
      a character from a text value. */
  datatype Item = Num(n: nat) | Char(c: char)

  /** `value[i]` on a tag value: arrays and text are indexed as Python
      indexes them (negative indexes count from the end); `None` and a
      plain number cannot be subscripted. */
  function Subscript(v: Option<Value>, i: int): (r: Result<Item>)
    ensures r.Ok? <==> IsSequence(v) && PySlot(i, SeqLength(v.value)).Some?
    ensures r.Ok? && v.value.Words? ==> r.value == Num(v.value.items[PySlot(i, |v.value.items|).value])
    ensures r.Ok? && v.value.Ascii? ==> r.value == Char(v.value.text[PySlot(i, |v.value.text|).value])
    ensures r.Err? ==> r.error == (if IsSequence(v) then IndexError else TypeError)
  {
    match v
    case Some(Words(items)) =>
      (match PySlot(i, |items|)
       case None => Err(IndexError)
       case Some(j) => Ok(Num(items[j])))
    case Some(Ascii(text)) =>
      (match PySlot(i, |text|)
       case None => Err(IndexError)
       case Some(j) => Ok(Char(text[j])))
    case _ => Err(TypeError)
  }

  /** A tag value Python can subscript: an array or a text. */
  predicate IsSequence(v: Option<Value>) {
    v.Some? && (v.value.Words? || v.value.Ascii?)
  }

  /** The number of items of an array or text value. */
  function SeqLength(v: Value): nat {
    match v
    case Words(items) => |items|
    case Ascii(text) => |text|
    case Scalar(_) => 0
  }

  /** `TileOffsets[i]` and `TileByteCounts[i]`, in that order.  Anything
      but two numbers makes the range arithmetic raise a TypeError. */
  function TileRange(h: Header, i: int): (r: Result<(nat, nat)>)
    ensures r.Ok? ==> Subscript(Info(h, "TileOffsets"), i) == Ok(Num(r.value.0))
                      && Subscript(Info(h, "TileByteCounts"), i) == Ok(Num(r.value.1))
    ensures r.Ok? <==> IsNumberAt(Info(h, "TileOffsets"), i) && IsNumberAt(Info(h, "TileByteCounts"), i)
    // the offset is looked up first, so its error wins
    ensures Subscript(Info(h, "TileOffsets"), i).Err? ==> r == Err(Subscript(Info(h, "TileOffsets"), i).error)
    ensures Subscript(Info(h, "TileOffsets"), i).Ok? && Subscript(Info(h, "TileByteCounts"), i).Err?
            ==> r == Err(Subscript(Info(h, "TileByteCounts"), i).error)
    ensures Subscript(Info(h, "TileOffsets"), i).Ok? && Subscript(Info(h, "TileByteCounts"), i).Ok? && r.Err?
            ==> r.error == TypeError
  {
    match Subscript(Info(h, "TileOffsets"), i)
    case Err(e) => Err(e)
    case Ok(off) =>
      match Subscript(Info(h, "TileByteCounts"), i)
      case Err(e) => Err(e)
      case Ok(n) => if off.Num? && n.Num? then Ok((off.n, n.n)) else Err(TypeError)
  }

  /** `v[i]` is a number. */
  predicate IsNumberAt(v: Option<Value>, i: int) {
    Subscript(v, i).Ok? && Subscript(v, i).value.Num?
  }

  /** A tile as an array of `rows` x `cols` items, row after row. */
  datatype Pixels = Pixels(rows: nat, cols: nat, items: seq<nat>)

  /** The stats record of a tile read; the timings are not modelled. */
  datatype Stats = Stats(chunkSize: nat)

  /** `(hdr, bb)` when no dtype is given, `(hdr, im, stats)` otherwise. */
  datatype Block = Raw(hdr: Header, data: seq<byte>) | Tile(hdr: Header, im: Pixels, stats: Stats)

  /** The error of `byteswap(inplace=True)` on an array that may not be
      written. */
  const ReadOnlySwap := ValueError("array to be byte-swapped is read-only")

  /** `np.ndarray((TileLength, TileWidth), dtype, buffer=bb)` with items of
      `k` bytes read in host order, then `byteswap(inplace=True)` when the
      file's byte order is not the host's.  The array is a view of the
      immutable `bytes` that `zlib.decompress` returns, so it is read-only
      and the in-place swap always fails. */
  function MakePixels(h: Header, bb: seq<byte>, k: nat, host: ByteOrder): (r: Result<Pixels>)
    requires k > 0
    ensures r.Ok? ==> |r.value.items| == r.value.rows * r.value.cols
                      && Info(h, "TileLength") == Some(Scalar(r.value.rows))
                      && Info(h, "TileWidth") == Some(Scalar(r.value.cols))
                      && r.value.rows * r.value.cols * k <= |bb|
    ensures r.Ok? ==> h.byteorder == host
    // a shape that fits the bytes, in the host's byte order, always gives the pixels
    ensures IsNumber(Info(h, "TileLength")) && IsNumber(Info(h, "TileWidth")) && h.byteorder == host
            && Info(h, "TileLength").value.n * Info(h, "TileWidth").value.n * k <= |bb|
            ==> r == Ok(TileOf(bb, Info(h, "TileLength").value.n, Info(h, "TileWidth").value.n, k, host))
  {
    match (Info(h, "TileLength"), Info(h, "TileWidth"))
    case (Some(Scalar(tl)), Some(Scalar(tw))) =>
      if |bb| < tl * tw * k then Err(TypeError)
      else if h.byteorder != host then Err(ReadOnlySwap)
      else Ok(TileOf(bb, tl, tw, k, host))
    case _ => Err(TypeError)
  }

  /** The `tl` x `tw` items of `k` bytes at the front of `bb`, in `host` order. */
  function TileOf(bb: seq<byte>, tl: nat, tw: nat, k: nat, host: ByteOrder): (im: Pixels)
    requires k > 0 && tl * tw * k <= |bb|
    ensures im.rows == tl && im.cols == tw && |im.items| == tl * tw
  {
    FromBytesCount(bb[..tl * tw * k], k, host, tl * tw);
    Pixels(tl, tw, FromBytes(bb[..tl * tw * k], k, host))
  }

  /** The number of bytes a tile of `k`-byte items takes. */
  function TileBytes(im: Pixels, k: nat): nat {
    im.rows * im.cols * k
  }

  /** Pixels exist only when the file's byte order is the host's, and are
      then the items read in the file's byte order. */
  lemma PixelsInFileOrder(h: Header, bb: seq<byte>, k: nat, host: ByteOrder, im: Pixels)
    requires k > 0 && MakePixels(h, bb, k, host) == Ok(im)
    ensures h.byteorder == host
    ensures TileBytes(im, k) <= |bb|
    ensures im.items == FromBytes(bb[..TileBytes(im, k)], k, h.byteorder)
  {
  }

  /** A tile whose file byte order is not the host's fails with the
      read-only swap error once its shape fits the buffer, and with the
      shape's TypeError before. */
  lemma ForeignOrderFails(h: Header, bb: seq<byte>, k: nat, host: ByteOrder)
    requires k > 0 && h.byteorder != host
    ensures MakePixels(h, bb, k, host).Err?
    ensures MakePixels(h, bb, k, host).error == ReadOnlySwap <==>
              match (Info(h, "TileLength"), Info(h, "TileWidth"))
              case (Some(Scalar(tl)), Some(Scalar(tw))) => tl * tw * k <= |bb|
              case _ => false
    ensures MakePixels(h, bb, k, host).error != ReadOnlySwap ==> MakePixels(h, bb, k, host).error == TypeError
  {
  }

  /** `tif_read_block`: the header, the tile index, the two checks, the
      tile's byte range, its bytes decompressed, and with a dtype of `k`
      bytes the tile as pixels with the tile size as `chunk_size`. */
  function ReadBlock(env: Env, url: string, b: BlockIdx, hdrMaxSz: int, dtype: Option<nat>): Result<Block>
    requires dtype.Some? ==> dtype.value > 0
  {
    match ReadHeader(env, url, hdrMaxSz)
    case Err(e) => Err(e)
    case Ok(h) =>
      match ResolveIdx(h, b)
      case Err(e) => Err(e)
      case Ok(i) =>
        if Gate(h).Some? then Err(Gate(h).value)
        else match TileRange(h, i)
          case Err(e) => Err(e)
          case Ok((off, n)) => FetchTile(env, url, h, off, n, dtype)
  }

  /** The tile fetch and decode once its byte range is known. */
  function FetchTile(env: Env, url: string, h: Header, off: nat, n: nat, dtype: Option<nat>): Result<Block>
    requires dtype.Some? ==> dtype.value > 0
  {
    match GetByteRange(env, url, off, off + n)
    case Err(e) => Err(e)
    case Ok(raw) =>
      match env.inflate(raw)
      case Err(e) => Err(e)
      case Ok(bb) =>
        if dtype.None? then Ok(Raw(h, bb))
        else match MakePixels(h, bb, dtype.value, env.host)
          case Err(e) => Err(e)
          case Ok(im) => Ok(Tile(h, im, Stats(n)))
  }

  /** The request `tif_read_header` makes. */
  function HeaderRequest(url: string, hdrMaxSz: int): (string, string, string) {
    (S3Location(url).0, S3Location(url).1, RangeHeader(0, hdrMaxSz))
  }

  /** The checks come before any tile bytes are fetched: when the header
      fails them, the result is the same for any object store that serves
      the same header bytes, and it is the check's error. */
  lemma GateBeforeFetch(env: Env, env': Env, url: string, b: BlockIdx, hdrMaxSz: int, dtype: Option<nat>)
    requires dtype.Some? ==> dtype.value > 0
    requires env'.host == env.host
    requires var (bk, key, rng) := HeaderRequest(url, hdrMaxSz);
      env'.getObject(bk, key, rng) == env.getObject(bk, key, rng)
    requires ReadHeader(env, url, hdrMaxSz).Ok?
    requires ResolveIdx(ReadHeader(env, url, hdrMaxSz).value, b).Ok?
    requires Gate(ReadHeader(env, url, hdrMaxSz).value).Some?
    ensures ReadBlock(env', url, b, hdrMaxSz, dtype) == ReadBlock(env, url, b, hdrMaxSz, dtype)
    ensures ReadBlock(env, url, b, hdrMaxSz, dtype).Err?
    ensures ReadBlock(env, url, b, hdrMaxSz, dtype).error == Gate(ReadHeader(env, url, hdrMaxSz).value).value
  {
    assert ReadHeader(env', url, hdrMaxSz) == ReadHeader(env, url, hdrMaxSz);
  }

  /** A successful read passed every step before the fetch: the header
      was read, both checks passed and the tile's byte range was found. */
  lemma ReadBlockChecks(env: Env, url: string, b: BlockIdx, hdrMaxSz: int, dtype: Option<nat>)
    requires dtype.Some? ==> dtype.value > 0
    requires ReadBlock(env, url, b, hdrMaxSz, dtype).Ok?
    ensures ReadHeader(env, url, hdrMaxSz).Ok?
    ensures var h := ReadHeader(env, url, hdrMaxSz).value;
      Gate(h).None? && ResolveIdx(h, b).Ok? && TileRange(h, ResolveIdx(h, b).value).Ok?
    ensures var h := ReadHeader(env, url, hdrMaxSz).value;
      var (off, n) := TileRange(h, ResolveIdx(h, b).value).value;
      ReadBlock(env, url, b, hdrMaxSz, dtype) == FetchTile(env, url, h, off, n, dtype)
  {
  }

  /** Once the header is read, the index resolves, both checks pass and
      the tile's byte range is found, the read is the fetch of that range. */
  lemma ReadBlockSucceeds(env: Env, url: string, b: BlockIdx, hdrMaxSz: int, dtype: Option<nat>)
    requires dtype.Some? ==> dtype.value > 0
    requires ReadHeader(env, url, hdrMaxSz).Ok?
    requires var h := ReadHeader(env, url, hdrMaxSz).value;
      ResolveIdx(h, b).Ok? && Gate(h).None? && TileRange(h, ResolveIdx(h, b).value).Ok?
    ensures var h := ReadHeader(env, url, hdrMaxSz).value;
      var (off, n) := TileRange(h, ResolveIdx(h, b).value).value;
      ReadBlock(env, url, b, hdrMaxSz, dtype) == FetchTile(env, url, h, off, n, dtype)
  {
  }

  /** The fetch succeeds when the store serves the range, it inflates, and
      (with a dtype) the pixels can be made; the inflated bytes are then
      returned raw or as those pixels. */
  lemma FetchTileSucceeds(env: Env, url: string, h: Header, off: nat, n: nat, dtype: Option<nat>)
    requires dtype.Some? ==> dtype.value > 0
    requires var (bk, key) := S3Location(url);
      && env.getObject(bk, key, RangeHeader(off, off + n)).Ok?
      && env.inflate(env.getObject(bk, key, RangeHeader(off, off + n)).value).Ok?
    ensures var (bk, key) := S3Location(url);
      var bb := env.inflate(env.getObject(bk, key, RangeHeader(off, off + n)).value).value;
      && (dtype.None? ==> FetchTile(env, url, h, off, n, dtype) == Ok(Raw(h, bb)))
      && (dtype.Some? && MakePixels(h, bb, dtype.value, env.host).Ok? ==>
            FetchTile(env, url, h, off, n, dtype) == Ok(Tile(h, MakePixels(h, bb, dtype.value, env.host).value, Stats(n))))
      && (dtype.Some? && MakePixels(h, bb, dtype.value, env.host).Err? ==>
            FetchTile(env, url, h, off, n, dtype) == Err(MakePixels(h, bb, dtype.value, env.host).error))
  {
  }

  /** A successful fetch: the tile bytes are those of [off, off + n),
      decompressed; with a dtype the stats give the tile size, without one
      the raw bytes come back and no stats. */
  lemma FetchTileResult(env: Env, url: string, h: Header, off: nat, n: nat, dtype: Option<nat>)
    requires dtype.Some? ==> dtype.value > 0
    requires FetchTile(env, url, h, off, n, dtype).Ok?
    ensures var (bk, key) := S3Location(url);
      && env.getObject(bk, key, RangeHeader(off, off + n)).Ok?
      && var bb := env.inflate(env.getObject(bk, key, RangeHeader(off, off + n)).value);
      && bb.Ok?
      && var r := FetchTile(env, url, h, off, n, dtype).value;
      && (dtype.None? ==> r == Raw(h, bb.value))
      && (dtype.Some? ==> r.Tile? && r.hdr == h && r.stats.chunkSize == n
                          && MakePixels(h, bb.value, dtype.value, env.host) == Ok(r.im))
  {
  }

  // ---------------------------------------------------------------------
  // Filling caller-owned slots

  /** `enumerate(urls)`. */
  function Enumerate(urls: seq<string>): (items: seq<(int, string)>)
    ensures |items| == |urls|
    ensures forall i :: 0 <= i < |urls| ==> items[i] == (i, urls[i])
  {
    seq(|urls|, i requires 0 <= i < |urls| => (i, urls[i]))
  }

  lemma EnumerateFrom(urls: seq<string>, k: nat)
    requires k < |urls|
    ensures Enumerate(urls)[k..][0] == (k, urls[k])
    ensures Enumerate(urls)[k..][1..] == Enumerate(urls)[k + 1..]
  {
  }

  /** The per-URL step of `header_stream_proc`: fetch and parse a header. */
  function HeaderReader(env: Env, hdrMaxSz: int): string -> Result<Header> {
    url => ReadHeader(env, url, hdrMaxSz)
  }

  /** Slots after a run of a stream procedure, and the exception that ended
      it, if any. */
  datatype Outcome<T> = Outcome(slots: seq<Option<T>>, error: Option<Error>)

  /** `header_stream_proc` as a value, with `read` the work done for one
      URL: for each (idx, url) in turn the result is computed, then stored
      in slot `idx`; the first exception stops the run, leaving the slots
      written so far. */
  function FillSlots<T>(read: string -> Result<T>, items: seq<(int, string)>, slots: seq<Option<T>>)
    : (o: Outcome<T>)
    ensures |o.slots| == |slots|
    decreases |items|
  {
    if items == [] then Outcome(slots, None)
    else
      match read(items[0].1)
      case Err(e) => Outcome(slots, Some(e))
      case Ok(h) =>
        match PySlot(items[0].0, |slots|)
        case None => Outcome(slots, Some(IndexError))
        case Some(j) => FillSlots(read, items[1..], slots[j := Some(h)])
  }

  /** A run is its first item's step followed by the run over the rest. */
  lemma FillSlotsCons<T>(read: string -> Result<T>, x: (int, string), rest: seq<(int, string)>,
                         slots: seq<Option<T>>)
    ensures var o := FillSlots(read, [x], slots);
      FillSlots(read, [x] + rest, slots) == if o.error.Some? then o else FillSlots(read, rest, o.slots)
  {
    assert ([x] + rest)[0] == x && ([x] + rest)[1..] == rest;
    assert [x][1..] == [];
  }

  /** One turn of `header_stream_proc`'s loop: compute the result for
      `url` and store it in slot `idx`. */
  method StoreSlot<T>(read: string -> Result<T>, x: (int, string), out: array<Option<T>>)
    returns (err: Option<Error>)
    modifies out
    ensures var o := FillSlots(read, [x], old(out[..]));
      out[..] == o.slots && err == o.error
  {
    var (idx, url) := x;
    assert [x][1..] == [];
    var r := read(url);
    if r.Err? {
      return Some(r.error);
    }
    var j := PySlot(idx, out.Length);
    if j.None? {
      return Some(IndexError);
    }
    out[j.value] := Some(r.value);
    return None;
  }

  /** The loop of `header_stream_proc` for any per-URL work `read`. */
  method FillProc<T>(read: string -> Result<T>, items: seq<(int, string)>, out: array<Option<T>>)
    returns (err: Option<Error>)
    modifies out
    ensures var o := FillSlots(read, items, old(out[..]));
      out[..] == o.slots && err == o.error
  {
    for n := 0 to |items|
      invariant FillSlots(read, items[n..], out[..]) == FillSlots(read, items, old(out[..]))
    {
      ghost var s0 := out[..];
      assert items[n..] == [items[n]] + items[n + 1..];
      FillSlotsCons(read, items[n], items[n + 1..], s0);
      var e := StoreSlot(read, items[n], out);
      if e.Some? {
        return e;
      }
    }
    assert items[|items|..] == [];
    return None;
  }

  /** `header_stream_proc` on a caller-owned list. */
  method HeaderStreamProc(env: Env, items: seq<(int, string)>, out: array<Option<Header>>, hdrMaxSz: int)
    returns (err: Option<Error>)
    modifies out
    ensures var o := FillSlots(HeaderReader(env, hdrMaxSz), items, old(out[..]));
      out[..] == o.slots && err == o.error
  {
    err := FillProc(HeaderReader(env, hdrMaxSz), items, out);
  }

  /** `read_headers` as a value: the filled list, or the exception. */
  function ReadHeadersSpec(env: Env, urls: seq<string>, hdrMaxSz: int): Result<seq<Option<Header>>> {
    var o := FillSlots(HeaderReader(env, hdrMaxSz), Enumerate(urls), seq(|urls|, _ => None));
    if o.error.Some? then Err(o.error.value) else Ok(o.slots)
  }

  /** `read_headers`: a list of `None`s, one per URL, filled in by
      `header_stream_proc`. */
  method ReadHeaders(env: Env, urls: seq<string>, hdrMaxSz: int) returns (r: Result<seq<Option<Header>>>)
    ensures r == ReadHeadersSpec(env, urls, hdrMaxSz)
  {
    var out := new Option<Header>[|urls|](_ => None);
    assert out[..] == seq(|urls|, _ => None);
    var err := HeaderStreamProc(env, Enumerate(urls), out, hdrMaxSz);
    if err.Some? {
      return Err(err.value);
    }
    return Ok(out[..]);
  }

  /** A run over enumerated URLs from position `k` on that ends without an
      exception has computed every result from there on and stored each in
      its own slot, leaving the slots before `k` alone. */
  lemma {:induction false} FillSucceeds<T>(read: string -> Result<T>, urls: seq<string>, k: nat,
                                           slots: seq<Option<T>>)
    requires k <= |urls| == |slots|
    requires FillSlots(read, Enumerate(urls)[k..], slots).error.None?
    ensures var o := FillSlots(read, Enumerate(urls)[k..], slots);
      && (forall j :: k <= j < |urls| ==> read(urls[j]).Ok? && o.slots[j] == Some(read(urls[j]).value))
      && (forall j :: 0 <= j < k ==> o.slots[j] == slots[j])
    decreases |urls| - k
  {
    if k < |urls| {
      EnumerateFrom(urls, k);
      FillSucceeds(read, urls, k + 1, slots[k := Some(read(urls[k]).value)]);
    }
  }

  /** A run over enumerated URLs from position `k` on that ends in an
      exception ends in the exception of the first URL from there that
      fails: no failure is isolated. */
  lemma {:induction false} FillFails<T>(read: string -> Result<T>, urls: seq<string>, k: nat,
                                        slots: seq<Option<T>>)
    requires k <= |urls| == |slots|
    requires FillSlots(read, Enumerate(urls)[k..], slots).error.Some?
    ensures exists j :: k <= j < |urls| && read(urls[j]).Err?
              && FillSlots(read, Enumerate(urls)[k..], slots).error == Some(read(urls[j]).error)
              && forall l :: k <= l < j ==> read(urls[l]).Ok?
    decreases |urls| - k
  {
    EnumerateFrom(urls, k);
    if read(urls[k]).Ok? {
      FillFails(read, urls, k + 1, slots[k := Some(read(urls[k]).value)]);
    }
  }

  /** A slot that no item names is never written. */
  lemma {:induction false} FillUntouched<T>(read: string -> Result<T>, items: seq<(int, string)>,
                                            slots: seq<Option<T>>, j: nat)
    requires j < |slots|
    requires forall t :: 0 <= t < |items| ==> PySlot(items[t].0, |slots|) != Some(j)
    ensures FillSlots(read, items, slots).slots[j] == slots[j]
    decreases |items|
  {
    if items != [] && read(items[0].1).Ok? && PySlot(items[0].0, |slots|).Some? {
      assert PySlot(items[0].0, |slots|) != Some(j);
      assert forall t :: 0 <= t < |items[1..]| ==> items[1..][t] == items[t + 1];
      var s := PySlot(items[0].0, |slots|).value;
      FillUntouched(read, items[1..], slots[s := Some(read(items[0].1).value)], j);
    }
  }

  /** `read_headers` returns one slot per URL, slot `idx` holding the header
      parsed from `urls[idx]`; or it raises the exception of the first URL
      whose header cannot be read. */
  lemma ReadHeadersSlots(env: Env, urls: seq<string>, hdrMaxSz: int)
    ensures var r := ReadHeadersSpec(env, urls, hdrMaxSz);
      r.Ok? ==> |r.value| == |urls|
                && forall i :: 0 <= i < |urls| ==>
                     ReadHeader(env, urls[i], hdrMaxSz).Ok? && r.value[i] == Some(ReadHeader(env, urls[i], hdrMaxSz).value)
    ensures var r := ReadHeadersSpec(env, urls, hdrMaxSz);
      r.Err? ==> exists i :: 0 <= i < |urls| && ReadHeader(env, urls[i], hdrMaxSz) == Err(r.error)
                   && forall l :: 0 <= l < i ==> ReadHeader(env, urls[l], hdrMaxSz).Ok?
  {
    var read := HeaderReader(env, hdrMaxSz);
    var slots: seq<Option<Header>> := seq(|urls|, _ => None);
    assert Enumerate(urls)[0..] == Enumerate(urls);
    assert forall u :: read(u) == ReadHeader(env, u, hdrMaxSz);
    if FillSlots(read, Enumerate(urls), slots).error.None? {
      FillSucceeds(read, urls, 0, slots);
    } else {
      FillFails(read, urls, 0, slots);
    }
  }

  /** The per-URL step of `block_stream_proc`: read a tile as `k`-byte items. */
  function BlockReader(env: Env, b: BlockIdx, hdrMaxSz: int, k: nat): string -> Result<Block>
    requires k > 0
  {
    url => ReadBlock(env, url, b, hdrMaxSz, Some(k))
  }

  /** Tile planes and stats after a run of `block_stream_proc`. */
  datatype BlockOutcome = BlockOutcome(planes: seq<seq<nat>>, stats: seq<Option<Stats>>, error: Option<Error>)

  /** `block_stream_proc` as a value, for a destination of `rows` x `cols`
      planes, with `read` the tile read of one URL: for each (idx, url) in
      turn the tile is read, its shape checked against the destination's,
      then stored in plane `idx` and its stats in slot `idx`.  The first
      exception stops the run. */
  function BlockFill(read: string -> Result<Block>, items: seq<(int, string)>, rows: nat, cols: nat,
                     planes: seq<seq<nat>>, stats: seq<Option<Stats>>): (o: BlockOutcome)
    ensures |o.planes| == |planes| && |o.stats| == |stats|
    decreases |items|
  {
    if items == [] then BlockOutcome(planes, stats, None)
    else
      match read(items[0].1)
      case Err(e) => BlockOutcome(planes, stats, Some(e))
      case Ok(Raw(_, _)) => BlockOutcome(planes, stats, Some(ValueError("not enough values to unpack")))
      case Ok(Tile(_, im, st)) =>
        if (rows, cols) != (im.rows, im.cols) then BlockOutcome(planes, stats, Some(AssertionError))
        else match PySlot(items[0].0, |planes|)
          case None => BlockOutcome(planes, stats, Some(IndexError))
          case Some(p) =>
            var planes' := planes[p := im.items];
            match PySlot(items[0].0, |stats|)
            case None => BlockOutcome(planes', stats, Some(IndexError))
            case Some(s) => BlockFill(read, items[1..], rows, cols, planes', stats[s := Some(st)])
  }

  /** A run is its first item's step followed by the run over the rest. */
  lemma BlockFillCons(read: string -> Result<Block>, x: (int, string), rest: seq<(int, string)>,
                      rows: nat, cols: nat, planes: seq<seq<nat>>, stats: seq<Option<Stats>>)
    ensures var o := BlockFill(read, [x], rows, cols, planes, stats);
      BlockFill(read, [x] + rest, rows, cols, planes, stats)
        == if o.error.Some? then o else BlockFill(read, rest, rows, cols, o.planes, o.stats)
  {
    assert ([x] + rest)[0] == x && ([x] + rest)[1..] == rest;
    assert [x][1..] == [];
  }

  /** One turn of `block_stream_proc`'s loop: read tile `url`, check its
      shape, store it in plane `idx` and its stats in slot `idx`. */
  method StoreBlock(read: string -> Result<Block>, x: (int, string), dst: array<seq<nat>>,
                    rows: nat, cols: nat, stats: array<Option<Stats>>)
    returns (err: Option<Error>)
    modifies dst, stats
    ensures var o := BlockFill(read, [x], rows, cols, old(dst[..]), old(stats[..]));
      dst[..] == o.planes && stats[..] == o.stats && err == o.error
  {
    var (idx, url) := x;
    assert [x][1..] == [];
    var blk := read(url);
    if blk.Err? {
      return Some(blk.error);
    }
    if blk.value.Raw? {
      return Some(ValueError("not enough values to unpack"));
    }
    var im, st := blk.value.im, blk.value.stats;
    if rows != im.rows || cols != im.cols {
      return Some(AssertionError);
    }
    var p := PySlot(idx, dst.Length);
    if p.None? {
      return Some(IndexError);
    }
    dst[p.value] := im.items;
    var s := PySlot(idx, stats.Length);
    if s.None? {
      return Some(IndexError);
    }
    stats[s.value] := Some(st);
    return None;
  }

  /** The loop of `block_stream_proc` for any per-URL work `read`. */
  method BlockProc(read: string -> Result<Block>, items: seq<(int, string)>, dst: array<seq<nat>>,
                   rows: nat, cols: nat, stats: array<Option<Stats>>)
    returns (err: Option<Error>)
    modifies dst, stats
    ensures var o := BlockFill(read, items, rows, cols, old(dst[..]), old(stats[..]));
      dst[..] == o.planes && stats[..] == o.stats && err == o.error
  {
    for n := 0 to |items|
      invariant BlockFill(read, items[n..], rows, cols, dst[..], stats[..])
             == BlockFill(read, items, rows, cols, old(dst[..]), old(stats[..]))
    {
      ghost var d0, s0 := dst[..], stats[..];
      assert items[n..] == [items[n]] + items[n + 1..];
      BlockFillCons(read, items[n], items[n + 1..], rows, cols, d0, s0);
      var e := StoreBlock(read, items[n], dst, rows, cols, stats);
      if e.Some? {
        return e;
      }
    }
    assert items[|items|..] == [];
    return None;
  }

  /** `block_stream_proc` on a caller-owned destination of `rows` x `cols`
      planes of `k`-byte items and a caller-owned stats list. */
  method BlockStreamProc(env: Env, items: seq<(int, string)>, b: BlockIdx, dst: array<seq<nat>>,
                         rows: nat, cols: nat, k: nat, stats: array<Option<Stats>>, hdrMaxSz: int)
    returns (err: Option<Error>)
    requires k > 0
    modifies dst, stats
    ensures var o := BlockFill(BlockReader(env, b, hdrMaxSz, k), items, rows, cols, old(dst[..]), old(stats[..]));
      dst[..] == o.planes && stats[..] == o.stats && err == o.error
  {
    err := BlockProc(BlockReader(env, b, hdrMaxSz, k), items, dst, rows, cols, stats);
  }

  /** `read_blocks` as a value: the destination planes after the run, and
      the stats list or the exception. */
  function ReadBlocksSpec(env: Env, urls: seq<string>, b: BlockIdx, planes: seq<seq<nat>>,
                          rows: nat, cols: nat, k: nat, hdrMaxSz: int): (seq<seq<nat>>, Result<seq<Option<Stats>>>)
    requires k > 0
  {
    var o := BlockFill(BlockReader(env, b, hdrMaxSz, k), Enumerate(urls), rows, cols, planes, seq(|urls|, _ => None));
    (o.planes, if o.error.Some? then Err(o.error.value) else Ok(o.stats))
  }

  /** `read_blocks`: a stats list of `None`s, one per URL, and the caller's
      destination, both filled in by `block_stream_proc`. */
  method ReadBlocks(env: Env, urls: seq<string>, b: BlockIdx, dst: array<seq<nat>>,
                    rows: nat, cols: nat, k: nat, hdrMaxSz: int) returns (r: Result<seq<Option<Stats>>>)
    requires k > 0
    modifies dst
    ensures (dst[..], r) == ReadBlocksSpec(env, urls, b, old(dst[..]), rows, cols, k, hdrMaxSz)
  {
    var stats := new Option<Stats>[|urls|](_ => None);
    assert stats[..] == seq(|urls|, _ => None);
    var err := BlockStreamProc(env, Enumerate(urls), b, dst, rows, cols, k, stats, hdrMaxSz);
    if err.Some? {
      return Err(err.value);
    }
    return Ok(stats[..]);
  }

  /** A tile read that `block_stream_proc` stores: a tile of the
      destination's plane shape. */
  predicate Fits(r: Result<Block>, rows: nat, cols: nat) {
    r.Ok? && r.value.Tile? && r.value.im.rows == rows && r.value.im.cols == cols
  }

  /** A run of `block_stream_proc` over enumerated URLs from position `k0`
      on that ends without an exception has read every tile from there on,
      each of the destination's shape, and stored each tile and its stats
      in its own slot; the other planes are left alone. */
  lemma {:induction false} BlockFillSucceeds(read: string -> Result<Block>, urls: seq<string>, k0: nat,
                                             rows: nat, cols: nat,
                                             planes: seq<seq<nat>>, stats: seq<Option<Stats>>)
    requires k0 <= |urls| == |stats| <= |planes|
    requires BlockFill(read, Enumerate(urls)[k0..], rows, cols, planes, stats).error.None?
    ensures var o := BlockFill(read, Enumerate(urls)[k0..], rows, cols, planes, stats);
      && (forall j :: k0 <= j < |urls| ==>
            Fits(read(urls[j]), rows, cols)
            && o.planes[j] == read(urls[j]).value.im.items && o.stats[j] == Some(read(urls[j]).value.stats))
      && (forall j :: 0 <= j < |planes| && !(k0 <= j < |urls|) ==> o.planes[j] == planes[j])
      && (forall j :: 0 <= j < k0 ==> o.stats[j] == stats[j])
    decreases |urls| - k0
  {
    if k0 < |urls| {
      EnumerateFrom(urls, k0);
      assert Fits(read(urls[k0]), rows, cols);
      var r := read(urls[k0]).value;
      assert PySlot(k0, |planes|) == Some(k0) && PySlot(k0, |stats|) == Some(k0);
      BlockFillSucceeds(read, urls, k0 + 1, rows, cols, planes[k0 := r.im.items], stats[k0 := Some(r.stats)]);
    }
  }

  /** The exception one turn of `block_stream_proc` raises for the tile read
      `r` of item `j`, with `nplanes` planes in the destination: the read's
      own error, a two-tuple that cannot be unpacked into three names, a
      tile of the wrong shape, or a plane index past the end. */
  function StepError(r: Result<Block>, rows: nat, cols: nat, j: nat, nplanes: nat): (e: Option<Error>)
    ensures e.None? <==> Fits(r, rows, cols) && j < nplanes
  {
    if r.Err? then Some(r.error)
    else if r.value.Raw? then Some(ValueError("not enough values to unpack"))
    else if (rows, cols) != (r.value.im.rows, r.value.im.cols) then Some(AssertionError)
    else if j >= nplanes then Some(IndexError)
    else None
  }

  /** A run of `block_stream_proc` over enumerated URLs from position `k0`
      on that ends in an exception ends in the exception of the first URL
      from there whose turn fails; every URL before it read a tile of the
      destination's shape into an existing plane.  No failure is isolated. */
  lemma {:induction false} BlockFillFails(read: string -> Result<Block>, urls: seq<string>, k0: nat,
                                          rows: nat, cols: nat,
                                          planes: seq<seq<nat>>, stats: seq<Option<Stats>>)
    requires k0 <= |urls| == |stats|
    requires BlockFill(read, Enumerate(urls)[k0..], rows, cols, planes, stats).error.Some?
    ensures exists j :: k0 <= j < |urls|
              && StepError(read(urls[j]), rows, cols, j, |planes|).Some?
              && BlockFill(read, Enumerate(urls)[k0..], rows, cols, planes, stats).error
                 == StepError(read(urls[j]), rows, cols, j, |planes|)
              && forall l :: k0 <= l < j ==> StepError(read(urls[l]), rows, cols, l, |planes|).None?
    decreases |urls| - k0
  {
    EnumerateFrom(urls, k0);
    if StepError(read(urls[k0]), rows, cols, k0, |planes|).None? {
      var r := read(urls[k0]).value;
      assert PySlot(k0, |planes|) == Some(k0) && PySlot(k0, |stats|) == Some(k0);
      BlockFillFails(read, urls, k0 + 1, rows, cols, planes[k0 := r.im.items], stats[k0 := Some(r.stats)]);
    } else {
      assert PySlot(k0, |planes|).None? <==> k0 >= |planes|;
    }
  }

  /** With fewer planes than URLs a run from position `k0` on never ends
      without an exception: the first URL past the last plane, if the run
      gets there, is an IndexError. */
  lemma {:induction false} BlockFillOverrun(read: string -> Result<Block>, urls: seq<string>, k0: nat,
                                            rows: nat, cols: nat,
                                            planes: seq<seq<nat>>, stats: seq<Option<Stats>>)
    requires k0 <= |planes| < |urls| == |stats|
    ensures BlockFill(read, Enumerate(urls)[k0..], rows, cols, planes, stats).error.Some?
    decreases |planes| - k0
  {
    EnumerateFrom(urls, k0);
    if k0 < |planes| && Fits(read(urls[k0]), rows, cols) {
      var r := read(urls[k0]).value;
      BlockFillOverrun(read, urls, k0 + 1, rows, cols, planes[k0 := r.im.items], stats[k0 := Some(r.stats)]);
    }
  }

  /** `read_blocks` that returns has read every tile, each of the
      destination's plane shape, and written tile `idx` to plane `idx` and
      its stats to slot `idx`; the planes past the URLs are left alone.  One
      that raises raises the exception of the first URL whose turn fails. */
  lemma ReadBlocksSlots(env: Env, urls: seq<string>, b: BlockIdx, planes: seq<seq<nat>>,
                        rows: nat, cols: nat, k: nat, hdrMaxSz: int)
    requires k > 0
    ensures |ReadBlocksSpec(env, urls, b, planes, rows, cols, k, hdrMaxSz).0| == |planes|
    ensures ReadBlocksSpec(env, urls, b, planes, rows, cols, k, hdrMaxSz).1.Ok? ==> |urls| <= |planes|
    ensures var (planes', r) := ReadBlocksSpec(env, urls, b, planes, rows, cols, k, hdrMaxSz);
      r.Err? ==> exists i :: 0 <= i < |urls|
                   && StepError(ReadBlock(env, urls[i], b, hdrMaxSz, Some(k)), rows, cols, i, |planes|) == Some(r.error)
                   && forall l :: 0 <= l < i ==>
                        StepError(ReadBlock(env, urls[l], b, hdrMaxSz, Some(k)), rows, cols, l, |planes|).None?
    ensures var (planes', r) := ReadBlocksSpec(env, urls, b, planes, rows, cols, k, hdrMaxSz);
      r.Ok? ==>
      && |r.value| == |urls|
      && (forall j :: 0 <= j < |urls| ==>
            var blk := ReadBlock(env, urls[j], b, hdrMaxSz, Some(k));
            && Fits(blk, rows, cols)
            && planes'[j] == blk.value.im.items && r.value[j] == Some(blk.value.stats))
      && (forall j :: |urls| <= j < |planes| ==> planes'[j] == planes[j])
  {
    var read := BlockReader(env, b, hdrMaxSz, k);
    var stats: seq<Option<Stats>> := seq(|urls|, _ => None);
    assert Enumerate(urls)[0..] == Enumerate(urls);
    assert forall u :: read(u) == ReadBlock(env, u, b, hdrMaxSz, Some(k));
    if BlockFill(read, Enumerate(urls), rows, cols, planes, stats).error.Some? {
      BlockFillFails(read, urls, 0, rows, cols, planes, stats);
    } else {
      if |urls| > |planes| {
        BlockFillOverrun(read, urls, 0, rows, cols, planes, stats);
        assert false;
      }
      BlockFillSucceeds(read, urls, 0, rows, cols, planes, stats);
    }
  }
}
