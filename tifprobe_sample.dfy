/** The sample header of the parser's own self-test: the first 220 bytes
    of a little-endian tiled GeoTIFF whose out-of-line values all lie past
    the end of the sample. */
module TifProbeSample {
  import opened Base
  import opened ByteWords
  import opened TifProbe
  import OrderedMaps

  const Sample: seq<byte> :=
      [73, 73, 42, 0, 8, 0, 0, 0, 17, 0, 0, 1, 3, 0, 1, 0]
    + ([0, 0, 11, 30, 0, 0, 1, 1, 3, 0, 1, 0, 0, 0, 121, 30]
    + ([0, 0, 2, 1, 3, 0, 1, 0, 0, 0, 16, 0, 0, 0, 3, 1]
    + ([3, 0, 1, 0, 0, 0, 8, 0, 0, 0, 6, 1, 3, 0, 1, 0]
    + ([0, 0, 1, 0, 0, 0, 21, 1, 3, 0, 1, 0, 0, 0, 1, 0]
    + ([0, 0, 28, 1, 3, 0, 1, 0, 0, 0, 1, 0, 0, 0, 61, 1]
    + ([3, 0, 1, 0, 0, 0, 2, 0, 0, 0, 66, 1, 3, 0, 1, 0]
    + ([0, 0, 0, 2, 0, 0, 67, 1, 3, 0, 1, 0, 0, 0, 0, 2]
    + ([0, 0, 68, 1, 4, 0, 0, 1, 0, 0, 218, 4, 0, 0, 69, 1]
    + ([4, 0, 0, 1, 0, 0, 218, 0, 0, 0, 83, 1, 3, 0, 1, 0]
    + ([0, 0, 1, 0, 0, 0, 14, 131, 12, 0, 3, 0, 0, 0, 218, 8]
    + ([0, 0, 130, 132, 12, 0, 6, 0, 0, 0, 242, 8, 0, 0, 175, 135]
    + ([3, 0, 32, 0, 0, 0, 34, 9, 0, 0, 177, 135, 2, 0, 30, 0]
    + ([0, 0, 98, 9, 0, 0, 0, 0, 0, 0, 19, 2])))))))))))))

  /** The 17 directory entries of the sample, in file order. */
  const SampleEntries: seq<Entry> := [
      Entry(256, 3, 1, 7691),
      Entry(257, 3, 1, 7801),
      Entry(258, 3, 1, 16),
      Entry(259, 3, 1, 8),
      Entry(262, 3, 1, 1),
      Entry(277, 3, 1, 1),
      Entry(284, 3, 1, 1),
      Entry(317, 3, 1, 2),
      Entry(322, 3, 1, 512),
      Entry(323, 3, 1, 512),
      Entry(324, 4, 256, 1242),
      Entry(325, 4, 256, 218),
      Entry(339, 3, 1, 1),
      Entry(33550, 12, 3, 2266),
      Entry(33922, 12, 6, 2290),
      Entry(34735, 3, 32, 2338),
      Entry(34737, 2, 30, 2402)
  ]

  /** The sample's file header: "II", 42, and a directory at byte 8
      holding 17 entries. */
  lemma SampleFileHeader()
    ensures |Sample| == 220
    ensures CheckByteOrder(Sample) == Ok(Little) && U16(Sample, 2, Little) == 42
    ensures U32(Sample, 4, Little) == 8 && U16(Sample, 8, Little) == 17
  {
  }

  lemma SampleEntry0()
    ensures |Sample| == 220 && EntryAt(Sample, 10, Little) == SampleEntries[0]
  {
  }

  lemma SampleEntry1()
    ensures |Sample| == 220 && EntryAt(Sample, 22, Little) == SampleEntries[1]
  {
  }

  lemma SampleEntry2()
    ensures |Sample| == 220 && EntryAt(Sample, 34, Little) == SampleEntries[2]
  {
  }

  lemma SampleEntry3()
    ensures |Sample| == 220 && EntryAt(Sample, 46, Little) == SampleEntries[3]
  {
  }

  lemma SampleEntry4()
    ensures |Sample| == 220 && EntryAt(Sample, 58, Little) == SampleEntries[4]
  {
  }

  lemma SampleEntry5()
    ensures |Sample| == 220 && EntryAt(Sample, 70, Little) == SampleEntries[5]
  {
  }

  lemma SampleEntry6()
    ensures |Sample| == 220 && EntryAt(Sample, 82, Little) == SampleEntries[6]
  {
  }

  lemma SampleEntry7()
    ensures |Sample| == 220 && EntryAt(Sample, 94, Little) == SampleEntries[7]
  {
  }

  lemma SampleEntry8()
    ensures |Sample| == 220 && EntryAt(Sample, 106, Little) == SampleEntries[8]
  {
  }

  lemma SampleEntry9()
    ensures |Sample| == 220 && EntryAt(Sample, 118, Little) == SampleEntries[9]
  {
  }

  lemma SampleEntry10()
    ensures |Sample| == 220 && EntryAt(Sample, 130, Little) == SampleEntries[10]
  {
  }

  lemma SampleEntry11()
    ensures |Sample| == 220 && EntryAt(Sample, 142, Little) == SampleEntries[11]
  {
  }

  lemma SampleEntry12()
    ensures |Sample| == 220 && EntryAt(Sample, 154, Little) == SampleEntries[12]
  {
  }

  lemma SampleEntry13()
    ensures |Sample| == 220 && EntryAt(Sample, 166, Little) == SampleEntries[13]
  {
  }

  lemma SampleEntry14()
    ensures |Sample| == 220 && EntryAt(Sample, 178, Little) == SampleEntries[14]
  {
  }

  lemma SampleEntry15()
    ensures |Sample| == 220 && EntryAt(Sample, 190, Little) == SampleEntries[15]
  {
  }

  lemma SampleEntry16()
    ensures |Sample| == 220 && EntryAt(Sample, 202, Little) == SampleEntries[16]
  {
  }

  /** Entry `i` of the sample's directory. */
  lemma SampleEntry(i: nat)
    requires i < 17
    ensures |Sample| == 220
    ensures EntryAt(Sample, 10 + 12 * i, Little) == SampleEntries[i]
  {
    if i == 0 { SampleEntry0(); } else if i == 1 { SampleEntry1(); } else if i == 2 { SampleEntry2(); } else if i == 3 { SampleEntry3(); } else if i == 4 { SampleEntry4(); } else if i == 5 { SampleEntry5(); } else if i == 6 { SampleEntry6(); } else if i == 7 { SampleEntry7(); } else if i == 8 { SampleEntry8(); } else if i == 9 { SampleEntry9(); } else if i == 10 { SampleEntry10(); } else if i == 11 { SampleEntry11(); } else if i == 12 { SampleEntry12(); } else if i == 13 { SampleEntry13(); } else if i == 14 { SampleEntry14(); } else if i == 15 { SampleEntry15(); } else { SampleEntry16(); }
  }

  /** The sample's directory decodes to `SampleEntries`. */
  lemma SampleDirectory()
    ensures |Sample| >= 8
    ensures DirectoryEntries(Sample, Little) == SampleEntries
  {
    SampleFileHeader();
    forall i | 0 <= i < 17 ensures DirectoryEntries(Sample, Little)[i] == SampleEntries[i] {
      SampleEntry(i);
    }
  }

  /** Every entry of the sample resolves: the only ASCII value lies past
      the end of the sample. */
  lemma SampleResolves(host: ByteOrder)
    ensures forall i :: 0 <= i < |SampleEntries| ==> Resolve(SampleEntries[i], Sample, Little, host).Ok?
  {
    SampleFileHeader();
    forall i | 0 <= i < |SampleEntries| ensures Resolve(SampleEntries[i], Sample, Little, host).Ok? {
      assert SampleEntries[i].valType != 2 || SampleEntries[i].valueOrOffset > 220;
      ResolveErrors(SampleEntries[i], Sample, Little, host);
    }
  }

  /** The self-test's claim: the sample parses, as a little-endian header,
      although none of its out-of-line values is in the sample. */
  lemma SampleParses(host: ByteOrder)
    ensures ParseHeader(Sample, host).Ok?
    ensures ParseHeader(Sample, host).value.byteorder == Little
  {
    SampleFileHeader();
    SampleDirectory();
    SampleResolves(host);
    CollectFails(SampleEntries, OrderedMaps.Empty(), Sample, Little, host);
    assert ParseHeader(Sample, host) == ParseWithOrder(Sample, Little, host);
  }
}
