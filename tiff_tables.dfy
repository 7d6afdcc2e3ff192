/** The constant tables of the TIFF header parser: the field types
    (section 2 of TIFF 6.0, "Types"), the catalogue of tag names, the tags
    projected into a header's `info`, and the type codes that Python's
    `array` module accepts. */
module TiffTables {
  import opened Base

  /** One row of the field-type table: `struct`/`array` format code, size of
      one item in bytes, and a display name. */
  datatype TypeEntry = TypeEntry(fmt: string, size: nat, name: string)

  /** The field-type table, keyed by the type id of a directory entry. */
  function TypeInfo(t: int): (r: Option<TypeEntry>)
    ensures r.Some? <==> 1 <= t <= 12
    ensures r.Some? ==> r.value.size in {1, 2, 4, 8}
  {
    match t
    case 1 => Some(TypeEntry("B", 1, "uint8"))
    case 2 => Some(TypeEntry("s", 1, "ASCII (8 bits)"))
    case 3 => Some(TypeEntry("H", 2, "uint16"))
    case 4 => Some(TypeEntry("I", 4, "uint32"))
    case 5 => Some(TypeEntry("II", 8, "RATIONAL (2x LONG, 64 bits)"))
    case 6 => Some(TypeEntry("b", 1, "int8"))
    case 7 => Some(TypeEntry("b", 1, "UNDEFINED (8 bits)"))
    case 8 => Some(TypeEntry("h", 2, "int16"))
    case 9 => Some(TypeEntry("i", 4, "int32"))
    case 10 => Some(TypeEntry("II", 8, "SRATIONAL (2x SLONG, 64 bits)"))
    case 11 => Some(TypeEntry("f", 4, "float32"))
    case 12 => Some(TypeEntry("d", 8, "float64"))
    case _ => None
  }

  /** The tag catalogue: tag id to tag name (the descriptions are not kept). */
  const TagNames: map<int, string> :=
    map[
      0x0100 := "ImageWidth",
      0x0101 := "ImageLength",
      0x0102 := "BitsPerSample",
      0x0103 := "Compression",
      0x0106 := "PhotometricInterpretation",
      0x0112 := "Orientation",
      0x0115 := "SamplesPerPixel",
      0x011C := "PlanarConfiguration",
      0x0212 := "YCbCrSubSampling",
      0x0213 := "YCbCrPositioning",
      0x011A := "XResolution",
      0x011B := "YResolution",
      0x0128 := "ResolutionUnit",
      0x0111 := "StripOffsets",
      0x0116 := "RowsPerStrip",
      0x0117 := "StripByteCounts",
      0x0201 := "JPEGInterchangeFormat",
      0x0202 := "JPEGInterchangeFormatLength",
      0x012D := "TransferFunction",
      0x013E := "WhitePoint",
      0x013F := "PrimaryChromaticities",
      0x0211 := "YCbCrCoefficients",
      0x0214 := "ReferenceBlackWhite",
      0x0132 := "DateTime",
      0x010E := "ImageDescription",
      0x010F := "Make",
      0x0110 := "Model",
      0x0131 := "Software",
      0x013B := "Artist",
      0x8298 := "Copyright",
      0x02bc := "XMPPacket",
      0x00FE := "NewSubfileType",
      0x00FF := "SubfileType",
      0x0107 := "Threshholding",
      0x0108 := "CellWidth",
      0x0109 := "CellLength",
      0x010A := "FillOrder",
      0x010D := "DocumentName",
      0x0118 := "MinSampleValue",
      0x0119 := "MaxSampleValue",
      0x011D := "PageName",
      0x011E := "XPosition",
      0x011F := "YPosition",
      0x0120 := "FreeOffsets",
      0x0121 := "FreeByteCounts",
      0x0122 := "GrayResponseUnit",
      0x0123 := "GrayResponseCurve",
      0x0124 := "T4Options",
      0x0125 := "T6Options",
      0x0129 := "PageNumber",
      0x013C := "HostComputer",
      0x013D := "Predictor",
      0x0140 := "ColorMap",
      0x0141 := "HalftoneHints",
      0x0142 := "TileWidth",
      0x0143 := "TileLength",
      0x0144 := "TileOffsets",
      0x0145 := "TileByteCounts",
      0x014B := "SubIFDs",
      0x014C := "InkSet",
      0x014D := "InkNames",
      0x014E := "NumberOfInks",
      0x0150 := "DotRange",
      0x0151 := "TargetPrinter",
      0x0152 := "ExtraSamples",
      0x0153 := "SampleFormat",
      0x0154 := "SMinSampleValue",
      0x0155 := "SMaxSampleValue",
      0x0156 := "TransferRange",
      0x0200 := "JPEGProc",
      0x0203 := "JPEGRestartInterval",
      0x0205 := "JPEGLosslessPredictors",
      0x0206 := "JPEGPointTransforms",
      0x0207 := "JPEGQTables",
      0x0208 := "JPEGDCTables",
      0x0209 := "JPEGACTables",
      0x830e := "ModelPixelScale",
      0x8482 := "ModelTiePoint",
      0x85d8 := "ModelTransformation",
      0x87af := "GeoKeyDirectory",
      0x87b0 := "GeoDoubleParams",
      0x87b1 := "GeoAsciiParams",
      0xa840 := "GDAL_METADATA",
      0xa841 := "GDAL_NODATA"
    ]

  /** The tags a header projects into its `info`, in their declared order. */
  const KeysOfInterest: seq<string> := [
    "ImageWidth", "ImageLength",
    "Compression", "Predictor",
    "SampleFormat", "BitsPerSample", "SamplesPerPixel", "PlanarConfiguration",
    "PhotometricInterpretation",
    "RowsPerStrip", "StripOffsets", "StripByteCounts",
    "TileWidth", "TileLength", "TileOffsets", "TileByteCounts"
  ]

  /** `array.typecodes` and the item size of each code on a 64-bit Linux
      host (`'u'` is a 4-byte wchar_t, `'l'` and `'L'` are 8 bytes). */
  function ArrayItemSize(fmt: string): (r: Option<nat>)
    ensures r.Some? ==> r.value in {1, 2, 4, 8}
  {
    match fmt
    case "b" => Some(1)
    case "B" => Some(1)
    case "u" => Some(4)
    case "h" => Some(2)
    case "H" => Some(2)
    case "i" => Some(4)
    case "I" => Some(4)
    case "l" => Some(8)
    case "L" => Some(8)
    case "q" => Some(8)
    case "Q" => Some(8)
    case "f" => Some(4)
    case "d" => Some(8)
    case _ => None
  }
}
