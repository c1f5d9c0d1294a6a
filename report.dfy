/**
 * The system report's text parsers: the package lists printed by dpkg-query,
 * rpm, pacman and apk, and the CSV printed by nvidia-smi. Each parser walks
 * the output line by line and fills a dictionary or a list.
 */
module Report {
  import opened Wrappers
  import opened Text

  /** The exception a parser can raise. */
  datatype ParseError = IndexError

  datatype PackageManager = Dpkg | Rpm | Pacman | Apk

  /** One `{index, name, driver_version, memory_total_mb}` record. */
  datatype GpuInfo = GpuInfo(index: string, name: string, driverVersion: string, memoryTotalMb: string)

  /** What one line contributes to the package dictionary, if anything. */
  type Entry = Option<(string, string)>

  /**
   * The dictionary obtained by assigning `packages[name] = version` for the
   * entries of `lines` in order (so a later line overwrites an earlier one).
   */
  function Collect(lines: seq<string>, f: string -> Entry): map<string, string>
    decreases |lines|
  {
    if lines == [] then map[]
    else Put(Collect(lines[..|lines| - 1], f), f(lines[|lines| - 1]))
  }

  /** `packages[name] = version` for an entry, nothing for a skipped line. */
  function Put(m: map<string, string>, e: Entry): map<string, string> {
    match e
    case None => m
    case Some(kv) => m[kv.0 := kv.1]
  }

  lemma CollectStep(lines: seq<string>, i: nat, f: string -> Entry)
    requires i < |lines|
    ensures Collect(lines[..i + 1], f) == Put(Collect(lines[..i], f), f(lines[i]))
  {
    assert lines[..i + 1][..i] == lines[..i];
  }

  /** The entry names the package. */
  predicate Produces(e: Entry, name: string) {
    e.Some? && e.value.0 == name
  }

  /**
   * A name is in the collected dictionary exactly when some line produced it,
   * and its version is the one of the LAST such line.
   */
  lemma {:induction false} CollectLastWins(lines: seq<string>, f: string -> Entry, name: string)
    ensures name in Collect(lines, f) <==> exists i :: 0 <= i < |lines| && Produces(f(lines[i]), name)
    ensures name in Collect(lines, f) ==>
      exists i :: 0 <= i < |lines| && Produces(f(lines[i]), name)
        && Collect(lines, f)[name] == f(lines[i]).value.1
        && forall j :: i < j < |lines| ==> !Produces(f(lines[j]), name)
    decreases |lines|
  {
    if lines != [] {
      var n := |lines| - 1;
      var init := lines[..n];
      CollectLastWins(init, f, name);
      var last := f(lines[n]);
      assert Collect(lines, f) == Put(Collect(init, f), last);
      if Produces(last, name) {
        assert Collect(lines, f)[name] == last.value.1;
        assert Produces(f(lines[n]), name);
      } else {
        assert name in Collect(lines, f) <==> name in Collect(init, f);
        if name in Collect(init, f) {
          var i :| 0 <= i < |init| && Produces(f(init[i]), name)
            && Collect(init, f)[name] == f(init[i]).value.1
            && forall j :: i < j < |init| ==> !Produces(f(init[j]), name);
          assert lines[i] == init[i];
          assert Collect(lines, f)[name] == Collect(init, f)[name];
          forall j | i < j < |lines| ensures !Produces(f(lines[j]), name) {
            if j < n { assert lines[j] == init[j]; }
          }
        } else {
          forall i | 0 <= i < |lines| ensures !Produces(f(lines[i]), name) {
            if i < n { assert lines[i] == init[i]; }
          }
        }
      }
    }
  }

  /** A non-empty line of whitespace only: it has no first field. */
  predicate WhitespaceOnly(line: string) {
    line != [] && forall i :: 0 <= i < |line| ==> IsSpace(line[i])
  }

  /** A line has a first field exactly when it is not whitespace only. */
  lemma FieldUnlessBlank(line: string)
    requires line != []
    ensures SplitWhitespaceOnce(line) == [] <==> WhitespaceOnly(line)
  {
    var r := LStrip(line);
    if r != [] {
      assert r[0] == line[|line| - |r|];
    }
  }

  /** A dpkg-query line `"<name> <version>"`: the version is stripped, or `""` when absent. */
  function DpkgLine(line: string): Entry
    requires !WhitespaceOnly(line) && line != []
  {
    FieldUnlessBlank(line);
    var parts := SplitWhitespaceOnce(line);
    Some((parts[0], if |parts| > 1 then Strip(parts[1]) else ""))
  }

  /** The dpkg entry function on every line: blank lines contribute nothing. */
  function DpkgEntry(line: string): Entry {
    if line == [] || WhitespaceOnly(line) then None else DpkgLine(line)
  }

  /** An rpm line: lines with no field are skipped, the version is stripped. */
  function RpmEntry(line: string): Entry {
    var parts := SplitWhitespaceOnce(line);
    if |parts| == 0 then None
    else Some((parts[0], if |parts| > 1 then Strip(parts[1]) else ""))
  }

  /** A pacman line: only lines with two fields count, and the version is kept as split. */
  function PacmanEntry(line: string): Entry {
    var parts := SplitWhitespaceOnce(line);
    if |parts| >= 2 then Some((parts[0], parts[1])) else None
  }

  /** An apk line: the name is the text before the first `-`, the version the rest re-joined with `-`. */
  function ApkEntry(line: string): Entry {
    var parts := SplitOn(line, '-');
    Some((parts[0], if |parts| > 1 then Join(parts[1..], '-') else ""))
  }

  /** The entry of a line with a field is its first field and its stripped rest. */
  lemma DpkgFields(line: string)
    requires line != [] && SplitWhitespaceOnce(line) != []
    ensures var parts := SplitWhitespaceOnce(line);
      DpkgEntry(line) == Some((parts[0], if |parts| > 1 then Strip(parts[1]) else ""))
  {
    FieldUnlessBlank(line);
  }

  /**
   * dpkg-query output. An empty line is skipped, but a line of whitespace
   * only has no first field and raises IndexError.
   */
  method ParseDpkg(lines: seq<string>) returns (r: Result<map<string, string>, ParseError>)
    ensures r.Ok? <==> forall k :: 0 <= k < |lines| ==> !WhitespaceOnly(lines[k])
    ensures r.Ok? ==> r.value == Collect(lines, DpkgEntry)
  {
    var packages: map<string, string> := map[];
    var i := 0;
    while i < |lines|
      invariant 0 <= i <= |lines|
      invariant forall k :: 0 <= k < i ==> !WhitespaceOnly(lines[k])
      invariant packages == Collect(lines[..i], DpkgEntry)
    {
      var line := lines[i];
      CollectStep(lines, i, DpkgEntry);
      if line == [] {
        i := i + 1;
        continue;
      }
      var parts := SplitWhitespaceOnce(line);
      if |parts| == 0 {
        FieldUnlessBlank(line);
        return Err(IndexError);
      }
      var pkg := parts[0];
      var ver := if |parts| > 1 then Strip(parts[1]) else "";
      DpkgFields(line);
      packages := packages[pkg := ver];
      i := i + 1;
    }
    assert lines[..i] == lines;
    r := Ok(packages);
  }

  method ParseRpm(lines: seq<string>) returns (packages: map<string, string>)
    ensures packages == Collect(lines, RpmEntry)
  {
    packages := map[];
    for i := 0 to |lines|
      invariant packages == Collect(lines[..i], RpmEntry)
    {
      CollectStep(lines, i, RpmEntry);
      var parts := SplitWhitespaceOnce(lines[i]);
      if |parts| == 0 {
        continue;
      }
      var name := parts[0];
      var ver := if |parts| > 1 then Strip(parts[1]) else "";
      packages := packages[name := ver];
    }
    assert lines[..|lines|] == lines;
  }

  method ParsePacman(lines: seq<string>) returns (packages: map<string, string>)
    ensures packages == Collect(lines, PacmanEntry)
  {
    packages := map[];
    for i := 0 to |lines|
      invariant packages == Collect(lines[..i], PacmanEntry)
    {
      CollectStep(lines, i, PacmanEntry);
      var parts := SplitWhitespaceOnce(lines[i]);
      if |parts| >= 2 {
        packages := packages[parts[0] := parts[1]];
      }
    }
    assert lines[..|lines|] == lines;
  }

  method ParseApk(lines: seq<string>) returns (packages: map<string, string>)
    ensures packages == Collect(lines, ApkEntry)
  {
    packages := map[];
    for i := 0 to |lines|
      invariant packages == Collect(lines[..i], ApkEntry)
    {
      CollectStep(lines, i, ApkEntry);
      var parts := SplitOn(lines[i], '-');
      var name := parts[0];
      var version := if |parts| > 1 then Join(parts[1..], '-') else "";
      packages := packages[name := version];
    }
    assert lines[..|lines|] == lines;
  }

  /**
   * An apk entry splits its line at the first `-`: name, then version,
   * which put back together with `-` give the line again; a line without
   * `-` is all name.
   */
  lemma {:induction false} ApkEntrySplitsAtFirstDash(line: string)
    ensures var e := ApkEntry(line).value;
      '-' !in e.0
      && ('-' in line ==> e.0 + "-" + e.1 == line)
      && ('-' !in line ==> e.0 == line && e.1 == "")
  {
    var parts := SplitOn(line, '-');
    JoinSplit(line, '-');
    if |parts| > 1 {
      assert Join(parts, '-') == parts[0] + ['-'] + Join(parts[1..], '-');
    } else {
      assert Join(parts, '-') == parts[0];
    }
  }

  /** The package dictionary of the first available manager, in the order dpkg, rpm, pacman, apk. */
  method GetSystemPackages(available: set<PackageManager>, output: PackageManager -> seq<string>)
    returns (r: Result<map<string, string>, ParseError>)
    ensures Dpkg in available ==>
      (r.Ok? <==> forall k :: 0 <= k < |output(Dpkg)| ==> !WhitespaceOnly(output(Dpkg)[k]))
      && (r.Ok? ==> r.value == Collect(output(Dpkg), DpkgEntry))
    ensures Dpkg !in available && Rpm in available ==> r == Ok(Collect(output(Rpm), RpmEntry))
    ensures Dpkg !in available && Rpm !in available && Pacman in available ==>
      r == Ok(Collect(output(Pacman), PacmanEntry))
    ensures Dpkg !in available && Rpm !in available && Pacman !in available && Apk in available ==>
      r == Ok(Collect(output(Apk), ApkEntry))
    ensures available == {} ==> r == Ok(map[])
  {
    if Dpkg in available {
      r := ParseDpkg(output(Dpkg));
      return;
    }
    if Rpm in available {
      var packages := ParseRpm(output(Rpm));
      return Ok(packages);
    }
    if Pacman in available {
      var packages := ParsePacman(output(Pacman));
      return Ok(packages);
    }
    if Apk in available {
      var packages := ParseApk(output(Apk));
      return Ok(packages);
    }
    r := Ok(map[]);
  }

  /** The fields of one nvidia-smi CSV line: split on `,`, each stripped. */
  function CsvFields(line: string): (fields: seq<string>)
    ensures |fields| == |SplitOn(line, ',')|
    ensures forall k :: 0 <= k < |fields| ==> fields[k] == Strip(SplitOn(line, ',')[k])
  {
    var parts := SplitOn(line, ',');
    seq(|parts|, k requires 0 <= k < |parts| => Strip(parts[k]))
  }

  /** The records of the lines that have at least four fields, in line order. */
  function GpuRecords(lines: seq<string>): seq<GpuInfo>
    decreases |lines|
  {
    if lines == [] then []
    else
      var init := GpuRecords(lines[..|lines| - 1]);
      var f := CsvFields(lines[|lines| - 1]);
      if |f| >= 4 then init + [GpuInfo(f[0], f[1], f[2], f[3])] else init
  }

  /** nvidia-smi `--format=csv,noheader,nounits` output, one GPU per line. */
  method ParseNvidiaSmi(lines: seq<string>) returns (gpus: seq<GpuInfo>)
    ensures gpus == GpuRecords(lines)
  {
    gpus := [];
    for i := 0 to |lines|
      invariant gpus == GpuRecords(lines[..i])
    {
      assert lines[..i + 1][..i] == lines[..i];
      var parts := CsvFields(lines[i]);
      if |parts| >= 4 {
        gpus := gpus + [GpuInfo(parts[0], parts[1], parts[2], parts[3])];
      }
    }
    assert lines[..|lines|] == lines;
  }

  /** No field holds a comma, and the GPU name carries no surrounding whitespace. */
  predicate GoodRecord(g: GpuInfo) {
    ',' !in g.index && ',' !in g.name && ',' !in g.driverVersion && ',' !in g.memoryTotalMb
    && Trimmed(g.name)
  }

  /** Neither end of the text is whitespace, as after `strip()`. */
  predicate Trimmed(s: string) {
    s == [] || (!IsSpace(s[0]) && !IsSpace(s[|s| - 1]))
  }

  /** At most one record per line, and every record is a good one. */
  lemma {:induction false} GpuRecordsShape(lines: seq<string>)
    ensures |GpuRecords(lines)| <= |lines|
    ensures forall g :: g in GpuRecords(lines) ==> GoodRecord(g)
    decreases |lines|
  {
    if lines != [] {
      var init := lines[..|lines| - 1];
      GpuRecordsShape(init);
      var rs := GpuRecords(init);
      var f := CsvFields(lines[|lines| - 1]);
      if |f| >= 4 {
        var g := GpuInfo(f[0], f[1], f[2], f[3]);
        assert GoodRecord(g) by { RecordShape(lines[|lines| - 1]); }
        assert GpuRecords(lines) == rs + [g];
        forall x | x in rs + [g] ensures GoodRecord(x) {
          if x != g { assert x in rs; }
        }
      } else {
        assert GpuRecords(lines) == rs;
      }
    }
  }

  /** The record of one line with at least four fields has the shape `GpuRecordsShape` states. */
  lemma RecordShape(line: string)
    requires |CsvFields(line)| >= 4
    ensures var f := CsvFields(line);
      ',' !in f[0] && ',' !in f[1] && ',' !in f[2] && ',' !in f[3] && Trimmed(f[1])
  {
    var parts := SplitOn(line, ',');
    forall k | 0 <= k < 4 ensures ',' !in CsvFields(line)[k] {
      StripKeepsAbsent(parts[k], ',');
    }
  }

  lemma StripKeepsAbsent(s: string, c: char)
    requires c !in s
    ensures c !in Strip(s)
  {
    var l := LStrip(s);
    assert forall x :: x in l ==> x in s;
    assert forall x :: x in RStrip(l) ==> x in l;
  }
}
