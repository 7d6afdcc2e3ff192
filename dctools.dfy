/** The datacube file lister: dataset locations are grouped by the file
    they live in (their URI up to the first '#'), groups are listed in the
    order their files were first seen, and optionally only files shared by
    several datasets are listed.  Also the names given to database
    cursors. */
module DcTools {
  import opened Base
  import opened Text
  import opened OrderedMaps
  import opened Urls

  // ---------------------------------------------------------------------
  // Cursor names

  /** `random_string(prefix)` with `bits` the 16 random bits drawn. */
  function RandomString(prefix: string, bits: nat): (s: string)
    requires bits < 0x1_0000
    ensures |s| == |prefix| + 4 && s[..|prefix|] == prefix
    ensures forall i :: |prefix| <= i < |s| ==> IsLowerHex(s[i])
  {
    prefix + Hex4(bits)
  }

  /** The four hex digits read back as the bits drawn, so two names with
      the same prefix differ exactly when the draws differ. */
  lemma RandomStringDecodes(prefix: string, bits: nat, other: nat)
    requires bits < 0x1_0000 && other < 0x1_0000
    ensures var s, p := RandomString(prefix, bits), |prefix|;
      4096 * HexValue(s[p]) + 256 * HexValue(s[p + 1]) + 16 * HexValue(s[p + 2]) + HexValue(s[p + 3]) == bits
    ensures RandomString(prefix, bits) == RandomString(prefix, other) <==> bits == other
  {
    var s, t := RandomString(prefix, bits), RandomString(prefix, other);
    assert s[|prefix|..] == Hex4(bits) && t[|prefix|..] == Hex4(other);
    if s == t {
      assert Hex4(bits) == Hex4(other);
    }
  }

  // ---------------------------------------------------------------------
  // Grouping

  /** One row of the location query: a dataset location with the cell its
      lower-left corner falls in. */
  datatype Record = Record(uri: string, lx: int, ly: int, tIn: int, tOut: int,
                           uuid: string, locId: int, product: string)

  datatype Dataset = Dataset(uuid: string, locId: int, time: (int, int), uri: string)

  /** All the datasets stored in one file. */
  datatype Group = Group(uri: string, cell: (int, int), product: string, datasets: seq<Dataset>)

  /** `uri.split('#')[0]`: the file a location points into. */
  function Key(r: Record): string {
    BeforeFirst(r.uri, '#')
  }

  function Cell(r: Record): (int, int) {
    (r.lx, r.ly)
  }

  /** `mk_dataset`. */
  function DatasetOf(r: Record): Dataset {
    Dataset(r.uuid, r.locId, (r.tIn, r.tOut), r.uri)
  }

  /** `_do_group` on the dictionary `dd`: a record with a new key starts a
      group of one dataset, with the record's cell and product; a record
      with a known key must have the group's cell, and is appended. */
  function GroupStep(dd: OrderedMap<string, Group>, r: Record): (res: Result<OrderedMap<string, Group>>)
    requires Valid(dd)
    ensures res.Ok? ==> Valid(res.value)
    ensures res.Err? <==> Key(r) in dd.vals && dd.vals[Key(r)].cell != Cell(r)
    ensures res.Err? ==> res.error == AssertionError
  {
    var k := Key(r);
    if k !in dd.vals then Ok(Put(dd, k, Group(k, Cell(r), r.product, [DatasetOf(r)])))
    else if dd.vals[k].cell != Cell(r) then Err(AssertionError)
    else Ok(Put(dd, k, dd.vals[k].(datasets := dd.vals[k].datasets + [DatasetOf(r)])))
  }

  /** The dictionary after feeding `records` one by one to `_do_group`, or
      the first failed assertion. */
  function GroupAll(records: seq<Record>): (res: Result<OrderedMap<string, Group>>)
    ensures res.Ok? ==> Valid(res.value)
    decreases |records|
  {
    if records == [] then Ok(Empty())
    else
      match GroupAll(records[..|records| - 1])
      case Err(e) => Err(e)
      case Ok(dd) => GroupStep(dd, records[|records| - 1])
  }

  /** `mk_grouper()`'s closure: the dictionary it fills, and the records it
      has accepted so far. */
  class Grouper {
    var dd: OrderedMap<string, Group>
    ghost var fed: seq<Record>

    ghost predicate Valid()
      reads this
    {
      GroupAll(fed) == Ok(dd)
    }

    /** `mk_grouper()`. */
    constructor()
      ensures Valid() && fed == [] && dd == Empty()
    {
      dd := Empty();
      fed := [];
    }

    /** `proc(uri, lx, ly, t_in, t_out, uuid, loc_id, product)`, that is
        `_do_group`.  A failed cell assertion leaves the dictionary as it
        was. */
    method DoGroup(r: Record) returns (err: Option<Error>)
      requires Valid()
      modifies this
      ensures Valid()
      ensures err.None? ==> fed == old(fed) + [r] && Ok(dd) == GroupStep(old(dd), r)
      ensures err.Some? ==> && err == Some(AssertionError) && fed == old(fed) && dd == old(dd)
                            && GroupStep(old(dd), r).Err?
    {
      var uriBase := BeforeFirst(r.uri, '#');
      var ds := DatasetOf(r);
      assert (fed + [r])[..|fed|] == fed;
      if uriBase !in dd.vals {
        dd := Put(dd, uriBase, Group(uriBase, (r.lx, r.ly), r.product, [ds]));
        fed := fed + [r];
        return None;
      }
      var f := dd.vals[uriBase];
      if f.cell != (r.lx, r.ly) {
        return Some(AssertionError);
      }
      dd := Put(dd, uriBase, f.(datasets := f.datasets + [ds]));
      fed := fed + [r];
      return None;
    }

    /** `proc()`: the groups, in the order their files were first seen. */
    method Proc() returns (groups: seq<Group>)
      requires Valid()
      ensures GroupAll(fed).Ok? && groups == Values(GroupAll(fed).value)
    {
      groups := Values(dd);
    }
  }

  // ---------------------------------------------------------------------
  // What the grouping computes

  function Keys(records: seq<Record>): (ks: seq<string>)
    ensures |ks| == |records|
    ensures forall i :: 0 <= i < |records| ==> ks[i] == Key(records[i])
  {
    seq(|records|, i requires 0 <= i < |records| => Key(records[i]))
  }

  /** Each key once, in the order of first appearance. */
  function FirstSeen(ks: seq<string>): (r: seq<string>)
    ensures forall k :: k in r <==> k in ks
    ensures forall i, j :: 0 <= i < j < |r| ==> r[i] != r[j]
    decreases |ks|
  {
    if ks == [] then []
    else
      var p := FirstSeen(ks[..|ks| - 1]);
      assert forall k :: k in ks <==> k in ks[..|ks| - 1] || k == ks[|ks| - 1];
      if ks[|ks| - 1] in p then p else p + [ks[|ks| - 1]]
  }

  /** The position of the first `k` in `ks`. */
  function FirstIndex(ks: seq<string>, k: string): (i: nat)
    requires k in ks
    ensures i < |ks| && ks[i] == k && k !in ks[..i]
  {
    if ks[0] == k then 0
    else
      var j := FirstIndex(ks[1..], k);
      assert ks[..j + 1] == [ks[0]] + ks[1..][..j];
      j + 1
  }

  /** A position holding `k` with no `k` before it is the first one. */
  lemma FirstIndexUnique(ks: seq<string>, k: string, i: nat)
    requires i < |ks| && ks[i] == k && k !in ks[..i]
    ensures FirstIndex(ks, k) == i
  {
  }

  /** `FirstSeen` lists the keys in the order of their first occurrence. */
  lemma {:induction false} FirstSeenOrder(ks: seq<string>)
    ensures forall i, j :: 0 <= i < j < |FirstSeen(ks)| ==>
              FirstIndex(ks, FirstSeen(ks)[i]) < FirstIndex(ks, FirstSeen(ks)[j])
    decreases |ks|
  {
    if ks != [] {
      var n := |ks| - 1;
      var pre := ks[..n];
      var p := FirstSeen(pre);
      FirstSeenOrder(pre);
      forall x | x in pre ensures FirstIndex(ks, x) == FirstIndex(pre, x) < n {
        var j := FirstIndex(pre, x);
        assert pre[..j] == ks[..j];
        FirstIndexUnique(ks, x, j);
      }
      if ks[n] !in p {
        assert ks[n] !in ks[..n];
        FirstIndexUnique(ks, ks[n], n);
      }
    }
  }

  /** The datasets of the records with key `k`, in arrival order. */
  function DatasetsWith(records: seq<Record>, k: string): seq<Dataset>
    decreases |records|
  {
    if records == [] then []
    else
      var last := records[|records| - 1];
      DatasetsWith(records[..|records| - 1], k) + (if Key(last) == k then [DatasetOf(last)] else [])
  }

  /** The first record with key `k`, if any. */
  function FirstWith(records: seq<Record>, k: string): (r: Option<Record>)
    ensures r.Some? ==> Key(r.value) == k && r.value in records
    decreases |records|
  {
    if records == [] then None
    else
      var last := records[|records| - 1];
      match FirstWith(records[..|records| - 1], k)
      case Some(r) => Some(r)
      case None => if Key(last) == k then Some(last) else None
  }

  /** Records sharing a file all lie in the same cell. */
  predicate Consistent(records: seq<Record>) {
    forall i, j :: 0 <= i < j < |records| && Key(records[i]) == Key(records[j]) ==> Cell(records[i]) == Cell(records[j])
  }

  /** The group of key `k` after `records`, as an independent definition:
      the key, the first record's cell and product, and every dataset with
      that key in arrival order. */
  function GroupOf(records: seq<Record>, k: string): Option<Group> {
    match FirstWith(records, k)
    case None => None
    case Some(first) => Some(Group(k, Cell(first), first.product, DatasetsWith(records, k)))
  }

  lemma FirstWithPrefix(records: seq<Record>, k: string, i: nat)
    requires i < |records| && Key(records[i]) == k
    ensures FirstWith(records, k).Some?
    ensures Cell(FirstWith(records, k).value) == Cell(records[i]) || !Consistent(records)
    decreases |records|
  {
    var n := |records| - 1;
    var init := records[..n];
    if i < n {
      assert init[i] == records[i];
      FirstWithPrefix(init, k, i);
      if Consistent(records) {
        assert Consistent(init) by {
          forall a, b | 0 <= a < b < |init| && Key(init[a]) == Key(init[b])
            ensures Cell(init[a]) == Cell(init[b])
          {
            assert init[a] == records[a] && init[b] == records[b];
          }
        }
      }
    }
  }

  /** Grouping fails just when two records of one file lie in different
      cells, and then it fails with the assertion. */
  lemma {:induction false} GroupAllSucceeds(records: seq<Record>)
    ensures GroupAll(records).Ok? <==> Consistent(records)
    ensures GroupAll(records).Err? ==> GroupAll(records).error == AssertionError
    decreases |records|
  {
    if records != [] {
      var n := |records| - 1;
      GroupAllSucceeds(records[..n]);
      ConsistentPrefix(records);
      if GroupAll(records[..n]).Ok? {
        if GroupStep(GroupAll(records[..n]).value, records[n]).Err? {
          MixedCellsFail(records);
        } else {
          CellsAgree(records);
        }
      }
    }
  }

  lemma ConsistentPrefix(records: seq<Record>)
    requires records != []
    ensures Consistent(records) ==> Consistent(records[..|records| - 1])
  {
    var init := records[..|records| - 1];
    if Consistent(records) {
      forall a, b | 0 <= a < b < |init| && Key(init[a]) == Key(init[b])
        ensures Cell(init[a]) == Cell(init[b])
      {
        assert init[a] == records[a] && init[b] == records[b];
      }
    }
  }

  /** A record whose file has a group in another cell breaks consistency. */
  lemma MixedCellsFail(records: seq<Record>)
    requires records != [] && GroupAll(records[..|records| - 1]).Ok?
    requires GroupStep(GroupAll(records[..|records| - 1]).value, records[|records| - 1]).Err?
    ensures !Consistent(records)
  {
    var n := |records| - 1;
    var init, last := records[..n], records[n];
    var k := Key(last);
    GroupContents(init, k);
    var first := FirstWith(init, k).value;
    var i :| 0 <= i < n && init[i] == first;
    assert init[i] == records[i];
    assert Key(records[i]) == Key(records[n]) && Cell(records[i]) != Cell(records[n]);
  }

  /** A record accepted after a consistent run keeps the run consistent. */
  lemma CellsAgree(records: seq<Record>)
    requires records != [] && Consistent(records[..|records| - 1])
    requires GroupAll(records[..|records| - 1]).Ok?
    requires GroupStep(GroupAll(records[..|records| - 1]).value, records[|records| - 1]).Ok?
    ensures Consistent(records)
  {
    var n := |records| - 1;
    var init, last := records[..n], records[n];
    var k := Key(last);
    GroupContents(init, k);
    forall a, b | 0 <= a < b < |records| && Key(records[a]) == Key(records[b])
      ensures Cell(records[a]) == Cell(records[b])
    {
      assert a < n && init[a] == records[a];
      if b == n {
        FirstWithPrefix(init, k, a);
      } else {
        assert init[b] == records[b];
      }
    }
  }

  /** The groups are keyed by file, in the order files were first seen. */
  lemma {:induction false} GroupKeysFirstSeen(records: seq<Record>)
    requires GroupAll(records).Ok?
    ensures GroupAll(records).value.keys == FirstSeen(Keys(records))
    decreases |records|
  {
    if records != [] {
      var n := |records| - 1;
      GroupKeysFirstSeen(records[..n]);
      assert Keys(records)[..n] == Keys(records[..n]);
    }
  }

  /** Each group holds its file's name, the first record's cell and
      product, and the datasets of every record of that file, in arrival
      order. */
  lemma {:induction false} GroupContents(records: seq<Record>, k: string)
    requires GroupAll(records).Ok?
    ensures k in GroupAll(records).value.vals <==> GroupOf(records, k).Some?
    ensures k in GroupAll(records).value.vals ==> GroupAll(records).value.vals[k] == GroupOf(records, k).value
    decreases |records|
  {
    if records != [] {
      var n := |records| - 1;
      var init, last := records[..n], records[n];
      GroupContents(init, k);
      var dd := GroupAll(init).value;
      assert GroupAll(records) == GroupStep(dd, last);
      var extra := if Key(last) == k then [DatasetOf(last)] else [];
      assert DatasetsWith(records, k) == DatasetsWith(init, k) + extra;
      if Key(last) != k {
        assert FirstWith(records, k) == FirstWith(init, k);
      } else if k in dd.vals {
        assert FirstWith(records, k) == FirstWith(init, k);
      } else {
        assert FirstWith(records, k) == Some(last);
        assert DatasetsWith(init, k) == [] by {
          DatasetsWithout(init, k);
        }
      }
    }
  }

  /** No record with key `k` contributes no dataset. */
  lemma {:induction false} DatasetsWithout(records: seq<Record>, k: string)
    requires FirstWith(records, k).None?
    ensures DatasetsWith(records, k) == []
    decreases |records|
  {
    if records != [] {
      DatasetsWithout(records[..|records| - 1], k);
    }
  }

  /** The number of datasets in a run of groups. */
  function Total(keys: seq<string>, vals: map<string, Group>): nat
    requires forall k :: k in keys ==> k in vals
  {
    if keys == [] then 0 else |vals[keys[0]].datasets| + Total(keys[1..], vals)
  }

  lemma {:induction false} TotalReplace(keys: seq<string>, vals: map<string, Group>, k: string, g: Group)
    requires forall x :: x in keys ==> x in vals
    requires k in vals
    requires forall i, j :: 0 <= i < j < |keys| ==> keys[i] != keys[j]
    ensures Total(keys, vals[k := g]) ==
              Total(keys, vals) + (if k in keys then |g.datasets| - |vals[k].datasets| else 0)
    decreases |keys|
  {
    if keys != [] {
      TotalReplace(keys[1..], vals, k, g);
    }
  }

  lemma {:induction false} TotalAppend(keys: seq<string>, vals: map<string, Group>, k: string, g: Group)
    requires forall x :: x in keys ==> x in vals
    requires k !in keys
    ensures Total(keys + [k], vals[k := g]) == Total(keys, vals) + |g.datasets|
    decreases |keys|
  {
    if keys != [] {
      assert (keys + [k])[1..] == keys[1..] + [k];
      TotalAppend(keys[1..], vals, k, g);
    } else {
      assert ([k])[1..] == [];
    }
  }

  /** Every record lands in exactly one group: the group sizes add up to
      the number of records fed. */
  lemma {:induction false} GroupSizesSum(records: seq<Record>)
    requires GroupAll(records).Ok?
    ensures Total(GroupAll(records).value.keys, GroupAll(records).value.vals) == |records|
    decreases |records|
  {
    if records != [] {
      var n := |records| - 1;
      var dd := GroupAll(records[..n]).value;
      var last := records[n];
      var k := Key(last);
      GroupSizesSum(records[..n]);
      if k in dd.vals {
        TotalReplace(dd.keys, dd.vals, k, dd.vals[k].(datasets := dd.vals[k].datasets + [DatasetOf(last)]));
      } else {
        TotalAppend(dd.keys, dd.vals, k, Group(k, Cell(last), last.product, [DatasetOf(last)]));
      }
    }
  }

  // ---------------------------------------------------------------------
  // Listing

  /** One line of the `files` listing: product, cell, number of datasets
      and the group's location, which the line shows as `Uri()`. */
  datatype Listing = Listing(product: string, cell: (int, int), count: nat, location: string) {
    /** The file column of the line. */
    function Uri(): string {
      DisplayUri(location)
    }
  }

  /** A `file:` URI is shown as its path; any other URI as it is. */
  function DisplayUri(uri: string): string {
    if Scheme(uri) == "file" then NetlocAndPath(uri).1 else uri
  }

  /** The line listed for a group. */
  function ListingOf(g: Group): Listing {
    Listing(g.product, g.cell, |g.datasets|, g.uri)
  }

  /** The lines listed for `groups`: with `stacked_only`, groups of fewer
      than two datasets are skipped. */
  function Listings(groups: seq<Group>, stackedOnly: bool): seq<Listing> {
    if groups == [] then []
    else
      var last := groups[|groups| - 1];
      Listings(groups[..|groups| - 1], stackedOnly)
      + (if stackedOnly && |last.datasets| < 2 then [] else [ListingOf(last)])
  }

  /** `process_one` on the rows of the location query: feed every row to a
      new grouper, then list its groups. */
  function ProcessOneSpec(rows: seq<Record>, stackedOnly: bool): Result<seq<Listing>> {
    match GroupAll(rows)
    case Err(e) => Err(e)
    case Ok(dd) => Ok(Listings(Values(dd), stackedOnly))
  }

  /** A failure on a prefix of the rows is the failure of all of them. */
  lemma {:induction false} GroupAllFailureSticks(records: seq<Record>, m: nat)
    requires m <= |records| && GroupAll(records[..m]).Err?
    ensures GroupAll(records) == GroupAll(records[..m])
    decreases |records|
  {
    if m < |records| {
      var n := |records| - 1;
      assert records[..n][..m] == records[..m];
      GroupAllFailureSticks(records[..n], m);
    } else {
      assert records[..m] == records;
    }
  }

  /** The listing loop of `process_one`. */
  method ListGroups(groups: seq<Group>, stackedOnly: bool) returns (lines: seq<Listing>)
    ensures lines == Listings(groups, stackedOnly)
  {
    lines := [];
    for j := 0 to |groups|
      invariant lines == Listings(groups[..j], stackedOnly)
    {
      assert groups[..j + 1][..j] == groups[..j];
      var f := groups[j];
      if stackedOnly && |f.datasets| < 2 {
        continue;
      }
      lines := lines + [ListingOf(f)];
    }
    assert groups[..|groups|] == groups;
  }

  /** The feeding loop of `process_one`: the rows go to a fresh grouper
      one by one; the first failed assertion ends it.  On success the
      result is the grouper's groups in first-seen order. */
  method FeedRows(rows: seq<Record>) returns (res: Result<seq<Group>>)
    ensures GroupAll(rows).Err? ==> res == Err(GroupAll(rows).error)
    ensures GroupAll(rows).Ok? ==> res == Ok(Values(GroupAll(rows).value))
  {
    var proc := new Grouper();
    for i := 0 to |rows|
      invariant proc.Valid() && proc.fed == rows[..i]
    {
      var err := proc.DoGroup(rows[i]);
      if err.Some? {
        FailureEndsRun(rows, i);
        return Err(err.value);
      }
      assert rows[..i] + [rows[i]] == rows[..i + 1];
    }
    assert rows[..|rows|] == rows;
    var groups := proc.Proc();
    return Ok(groups);
  }

  /** A row the grouper rejects ends the whole run with the assertion. */
  lemma FailureEndsRun(rows: seq<Record>, i: int)
    requires 0 <= i < |rows| && GroupAll(rows[..i]).Ok?
    requires GroupStep(GroupAll(rows[..i]).value, rows[i]).Err?
    ensures GroupAll(rows) == Err(AssertionError)
  {
    var x := rows[..i + 1];
    assert x[..|x| - 1] == rows[..i] && x[|x| - 1] == rows[i];
    LastStepFails(x);
    GroupAllFailureSticks(rows, i + 1);
  }

  /** A rejected last row fails the run. */
  lemma LastStepFails(x: seq<Record>)
    requires x != [] && GroupAll(x[..|x| - 1]).Ok?
    requires GroupStep(GroupAll(x[..|x| - 1]).value, x[|x| - 1]).Err?
    ensures GroupAll(x) == Err(AssertionError)
  {
  }

  /** `process_one`: feed every row to a fresh grouper, then list its
      groups. */
  method ProcessOne(rows: seq<Record>, stackedOnly: bool) returns (res: Result<seq<Listing>>)
    ensures res == ProcessOneSpec(rows, stackedOnly)
  {
    var groups := FeedRows(rows);
    if groups.Err? {
      return Err(groups.error);
    }
    var lines := ListGroups(groups.value, stackedOnly);
    return Ok(lines);
  }

  /** Without `stacked_only` every group is listed, in order. */
  lemma ListingsUnfiltered(groups: seq<Group>)
    ensures |Listings(groups, false)| == |groups|
    ensures forall i :: 0 <= i < |groups| ==> Listings(groups, false)[i] == ListingOf(groups[i])
  {
    ListingsCount(groups);
    forall i | 0 <= i < |groups|
      ensures Listings(groups, false)[i] == ListingOf(groups[i])
    {
      ListingAt(groups, i);
    }
  }

  lemma {:induction false} ListingsCount(groups: seq<Group>)
    ensures |Listings(groups, false)| == |groups|
    decreases |groups|
  {
    if groups != [] {
      ListingsCount(groups[..|groups| - 1]);
    }
  }

  lemma {:induction false} ListingAt(groups: seq<Group>, i: int)
    requires 0 <= i < |groups|
    ensures |Listings(groups, false)| == |groups| && Listings(groups, false)[i] == ListingOf(groups[i])
    decreases |groups|
  {
    var n := |groups| - 1;
    ListingsCount(groups[..n]);
    if i < n {
      assert groups[..n][i] == groups[i];
      ListingAt(groups[..n], i);
    }
  }

  /** With `stacked_only` every line listed is a group of the grouper with
      two or more datasets. */
  lemma {:induction false} ListingsStackedOnly(groups: seq<Group>)
    ensures forall l :: l in Listings(groups, true) ==> l.count >= 2 && exists g :: g in groups && l == ListingOf(g)
    decreases |groups|
  {
    if groups != [] {
      var n := |groups| - 1;
      ListingsStackedOnly(groups[..n]);
      assert forall g :: g in groups[..n] ==> g in groups;
    }
  }

  /** With `stacked_only` every group of two or more datasets is listed
      (and without it every group is). */
  lemma ListingsKeepStacked(groups: seq<Group>, stackedOnly: bool)
    ensures forall i :: 0 <= i < |groups| && (!stackedOnly || |groups[i].datasets| >= 2) ==>
              ListingOf(groups[i]) in Listings(groups, stackedOnly)
  {
    forall i | 0 <= i < |groups| && (!stackedOnly || |groups[i].datasets| >= 2) {
      GroupListed(groups, stackedOnly, i);
    }
  }

  lemma {:induction false} GroupListed(groups: seq<Group>, stackedOnly: bool, i: int)
    requires 0 <= i < |groups| && (!stackedOnly || |groups[i].datasets| >= 2)
    ensures ListingOf(groups[i]) in Listings(groups, stackedOnly)
    decreases |groups|
  {
    var n := |groups| - 1;
    if i < n {
      assert groups[..n][i] == groups[i];
      GroupListed(groups[..n], stackedOnly, i);
    }
  }

  /** A location in a local file is listed as its path. */
  lemma FileUriShownAsPath(path: string)
    requires |path| > 0 && path[0] == '/' && '?' !in path && '#' !in path
    ensures DisplayUri("file://" + path) == path
  {
    FileScheme("//" + path);
    FilePath(path);
  }

  lemma FileScheme(rest: string)
    ensures Scheme("file:" + rest) == "file"
  {
    var url := "file:" + rest;
    assert url == "file" + [':'] + rest;
    SplitJoined("file", ':', rest);
    assert IsScheme("file");
    assert LowerAscii("file") == "file";
  }

  lemma FilePath(path: string)
    requires |path| > 0 && path[0] == '/' && '?' !in path && '#' !in path
    ensures "file://" + path == "file:" + ("//" + path)
    ensures NetlocAndPath("file://" + path).1 == path
  {
    FileUrlParts(path);
    SchemeRemoved("file", "//" + path);
    NetlocOfBucket("", path[1..]);
  }

  lemma FileUrlParts(path: string)
    requires |path| > 0 && path[0] == '/'
    ensures "file://" + path == "file" + [':'] + ("//" + path) == "file:" + ("//" + path)
    ensures "//" + "" + "/" + path[1..] == "//" + path && "/" + path[1..] == path
  {
  }
}
