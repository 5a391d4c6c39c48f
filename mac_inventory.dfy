/** The MAC-address inventory tools: normalising MACs, choosing the MAC column, loading a
    baseline, writing the rows of a compare file that are new against the baseline, and merging
    the resulting diff files so that every MAC appears once. The three London scripts share
    these definitions; they differ only in which of them `main` calls. */
module MacInventory {
  import opened Wrappers
  import opened Text
  import opened Folds
  import opened Tables

  // ---------------------------------------------------------------- normalisation

  /** A character `normalize_mac` can leave behind. */
  predicate IsMacDigit(c: char) { '0' <= c <= '9' || 'a' <= c <= 'f' }

  /** `normalize_mac`: the hexadecimal digits of `s`, lower-cased, in order. */
  function NormalizeMac(s: string): (r: string)
    ensures |r| <= |s|
    ensures forall i :: 0 <= i < |r| ==> IsMacDigit(r[i])
    decreases |s|
  {
    if s == [] then []
    else (if IsHexDigit(s[0]) then [LowerChar(s[0])] else []) + NormalizeMac(s[1..])
  }

  /** `re.sub(r'[^0-9a-fA-F]', '', s)`. */
  function HexOnly(s: string): string
    decreases |s|
  {
    if s == [] then [] else (if IsHexDigit(s[0]) then [s[0]] else []) + HexOnly(s[1..])
  }

  /** The two steps of the source, substitution then `lower()`, give the same string. */
  lemma {:induction false} NormalizeMacIsLowerHex(s: string)
    ensures NormalizeMac(s) == Lower(HexOnly(s))
    decreases |s|
  {
    if s != [] {
      NormalizeMacIsLowerHex(s[1..]);
      var h := if IsHexDigit(s[0]) then [s[0]] else [];
      LowerAppend(h, HexOnly(s[1..]));
    }
  }

  /** A string is left unchanged exactly when it already consists of lower-case hex digits. */
  lemma {:induction false} NormalizeMacFixpoint(s: string)
    ensures NormalizeMac(s) == s <==> forall i :: 0 <= i < |s| ==> IsMacDigit(s[i])
    decreases |s|
  {
    if s != [] && forall i :: 0 <= i < |s| ==> IsMacDigit(s[i]) {
      assert forall i :: 0 <= i < |s[1..]| ==> s[1..][i] == s[i + 1];
      NormalizeMacFixpoint(s[1..]);
    }
  }

  lemma NormalizeMacIdempotent(s: string)
    ensures NormalizeMac(NormalizeMac(s)) == NormalizeMac(s)
  {
    NormalizeMacFixpoint(NormalizeMac(s));
  }

  lemma {:induction false} NormalizeMacAppend(a: string, b: string)
    ensures NormalizeMac(a + b) == NormalizeMac(a) + NormalizeMac(b)
    decreases |a|
  {
    if a == [] {
      assert a + b == b;
    } else {
      var h := if IsHexDigit(a[0]) then [LowerChar(a[0])] else [];
      assert (a + b)[0] == a[0] && (a + b)[1..] == a[1..] + b;
      assert NormalizeMac(a + b) == h + NormalizeMac(a[1..] + b);
      NormalizeMacAppend(a[1..], b);
      AppendAssoc(h, NormalizeMac(a[1..]), NormalizeMac(b));
    }
  }

  /** Example: the Cisco dotted form and the colon form of one address meet, which is the point of normalising. */
  lemma DottedAndColonFormsMeet()
    ensures NormalizeMac("aB.Cd") == NormalizeMac("Ab:cD") == "abcd"
  {
  }

  /** `normalize_mac(row.get(field, ''))`: `None` (a short row) normalises to `""`. */
  function CellMac(v: Option<string>): (r: string)
    ensures v.None? ==> r == ""
    ensures v.Some? ==> r == NormalizeMac(v.value)
  {
    match v
    case None => ""
    case Some(s) => NormalizeMac(s)
  }

  /** The normalised MAC of `rec` under column `field`, when it is not empty. */
  function MacEntry(field: string, rec: Record): (r: Option<string>)
    ensures r.Some? <==> CellMac(Get(rec, field)) != ""
    ensures r.Some? ==> r.value == CellMac(Get(rec, field))
  {
    var m := CellMac(Get(rec, field));
    if m == "" then None else Some(m)
  }

  // ---------------------------------------------------------------- choosing the column

  predicate IsExactMac(f: string) { Lower(f) == "mac address" }

  predicate MentionsMac(f: string) { Contains(Lower(f), "mac") }

  lemma ExactMentions(f: string)
    requires IsExactMac(f)
    ensures MentionsMac(f)
  {
    assert Lower(f)[..3] == "mac";
  }

  /** `find_mac_field`: the first header equal to `mac address` ignoring case, else the first
      header containing `mac` ignoring case, else `None`. */
  function FindMacField(fields: seq<string>): Option<string> {
    var e := FirstIndex(fields, IsExactMac);
    if e >= 0 then Some(fields[e])
    else
      var m := FirstIndex(fields, MentionsMac);
      if m >= 0 then Some(fields[m]) else None
  }

  /** What `find_mac_field` promises: a header is found exactly when some header mentions
      `mac`; it is returned as spelled; an exact `mac address` header wins, the first one if
      there are several; without one, the first header mentioning `mac` is chosen. */
  lemma FindMacFieldChoice(fields: seq<string>)
    ensures FindMacField(fields).None? <==> forall j :: 0 <= j < |fields| ==> !MentionsMac(fields[j])
    ensures FindMacField(fields).Some? ==>
      exists i :: 0 <= i < |fields| && fields[i] == FindMacField(fields).value && MentionsMac(fields[i])
    ensures (exists j :: 0 <= j < |fields| && IsExactMac(fields[j])) ==>
      exists i :: (0 <= i < |fields| && FindMacField(fields) == Some(fields[i]) && IsExactMac(fields[i])
        && forall j :: 0 <= j < i ==> !IsExactMac(fields[j]))
    ensures (forall j :: 0 <= j < |fields| ==> !IsExactMac(fields[j])) && FindMacField(fields).Some? ==>
      exists i :: (0 <= i < |fields| && FindMacField(fields) == Some(fields[i])
        && forall j :: 0 <= j < i ==> !MentionsMac(fields[j]))
  {
    var e := FirstIndex(fields, IsExactMac);
    if e >= 0 {
      ExactMentions(fields[e]);
    } else {
      var m := FirstIndex(fields, MentionsMac);
    }
  }

  /** The column the scripts use for a file, if it has one. */
  function MacColumn(rows: seq<Row>): Option<string> {
    FindMacField(FieldsOrEmpty(rows))
  }

  // ---------------------------------------------------------------- the baseline

  /** `load_macs_from_csv`: the non-empty normalised MACs of a file's MAC column; nothing for a
      path that is not a file or a file without a MAC column. */
  function LoadedMacs(file: CsvFile): set<string> {
    match file
    case Missing => {}
    case Present(rows) =>
      match MacColumn(rows)
      case None => {}
      case Some(f) => FilterSet(DictRows(rows), (rec: Record) => MacEntry(f, rec))
  }

  lemma LoadedMacsMember(file: CsvFile, m: string)
    ensures m in LoadedMacs(file) <==>
      && file.Present? && MacColumn(file.rows).Some?
      && m != ""
      && exists rec :: rec in DictRows(file.rows) && CellMac(Get(rec, MacColumn(file.rows).value)) == m
  {
    if file.Present? && MacColumn(file.rows).Some? {
      var f, recs := MacColumn(file.rows).value, DictRows(file.rows);
      FilterSetMember(recs, (rec: Record) => MacEntry(f, rec), m);
    }
  }

  /** The loop of `load_macs_from_csv`. */
  method LoadMacsFromCsv(file: CsvFile) returns (macs: set<string>)
    ensures macs == LoadedMacs(file)
  {
    macs := {};
    if file.Missing? {
      return;
    }
    var field := MacColumn(file.rows);
    if field.None? {
      return;
    }
    var recs := DictRows(file.rows);
    ghost var g := (rec: Record) => MacEntry(field.value, rec);
    for i := 0 to |recs|
      invariant macs == FilterSet(recs[..i], g)
    {
      assert recs[..i + 1][..i] == recs[..i];
      var mac := CellMac(Get(recs[i], field.value));
      if mac != "" {
        macs := macs + {mac};
      }
    }
    assert recs[..|recs|] == recs;
  }

  /** The union of the baseline files' MACs. */
  function UnionMacs(files: seq<CsvFile>): set<string> {
    UnionOf(files, LoadedMacs)
  }

  lemma UnionMacsMember(files: seq<CsvFile>, m: string)
    ensures m in UnionMacs(files) <==> exists i :: 0 <= i < |files| && m in LoadedMacs(files[i])
  {
    UnionOfMember(files, LoadedMacs, m);
  }

  /** `baseline_macs.update(load_macs_from_csv(bp))` for every baseline path, in `main`. */
  method BaselineMacs(files: seq<CsvFile>) returns (macs: set<string>)
    ensures macs == UnionMacs(files)
  {
    macs := {};
    for i := 0 to |files|
      invariant macs == UnionMacs(files[..i])
    {
      assert files[..i + 1][..i] == files[..i];
      var loaded := LoadMacsFromCsv(files[i]);
      macs := macs + loaded;
    }
    assert files[..|files|] == files;
  }

  // ---------------------------------------------------------------- comparing one file

  /** A row of a compare file is kept when its MAC is not empty and not in the baseline. */
  function KeepNew(field: string, baseline: set<string>, rec: Record): Option<Record> {
    var m := CellMac(Get(rec, field));
    if m != "" && m !in baseline then Some(rec) else None
  }

  /** The rows `compare_file` writes, unchanged and in file order. */
  function DiffRows(recs: seq<Record>, field: string, baseline: set<string>): seq<Record> {
    FilterMap(recs, (rec: Record) => KeepNew(field, baseline, rec))
  }

  /** A row is in the diff exactly when it is a row of the file whose normalised MAC is
      non-empty and outside the baseline. */
  lemma DiffRowsMember(recs: seq<Record>, field: string, baseline: set<string>, rec: Record)
    ensures rec in DiffRows(recs, field, baseline) <==>
      rec in recs && CellMac(Get(rec, field)) != "" && CellMac(Get(rec, field)) !in baseline
  {
    FilterMapMember(recs, (r: Record) => KeepNew(field, baseline, r), rec);
  }

  /** The diff keeps the file's order: each row is either kept in place or dropped. */
  lemma DiffRowsCons(r: Record, recs: seq<Record>, field: string, baseline: set<string>)
    ensures DiffRows([r] + recs, field, baseline) ==
      (if CellMac(Get(r, field)) != "" && CellMac(Get(r, field)) !in baseline then [r] else [])
      + DiffRows(recs, field, baseline)
  {
    FilterMapCons(r, recs, (x: Record) => KeepNew(field, baseline, x));
  }

  /** Against the union baseline, a row is new exactly when no baseline file has its MAC. */
  lemma DiffAgainstUnion(recs: seq<Record>, field: string, bases: seq<CsvFile>, rec: Record)
    ensures rec in DiffRows(recs, field, UnionMacs(bases)) <==>
      && rec in recs && CellMac(Get(rec, field)) != ""
      && forall i :: 0 <= i < |bases| ==> CellMac(Get(rec, field)) !in LoadedMacs(bases[i])
  {
    DiffRowsMember(recs, field, UnionMacs(bases), rec);
    UnionMacsMember(bases, CellMac(Get(rec, field)));
  }

  /** `path.suffix`: from the last `.` on, when that dot is neither first nor last. */
  function Suffix(name: string): (r: string)
    ensures r == [] || r[0] == '.'
  {
    var i := LastIndexOf(name, '.');
    if 0 < i < |name| - 1 then name[i..] else ""
  }

  /** `path.stem`. */
  function Stem(name: string): string {
    var i := LastIndexOf(name, '.');
    if 0 < i < |name| - 1 then name[..i] else name
  }

  lemma StemSuffix(name: string)
    ensures Stem(name) + Suffix(name) == name
  {
  }

  /** The name `compare_file` writes to, next to the compare file. */
  function DiffName(name: string): string {
    Stem(name) + "_diff_vs_baseline" + Suffix(name)
  }

  /** For a CSV name the marker goes right before the extension. */
  lemma DiffNameOfCsv(base: string)
    requires base != []
    ensures DiffName(base + ".csv") == base + "_diff_vs_baseline.csv"
  {
    var n := base + ".csv";
    CsvDot(base);
    assert Stem(n) == base && Suffix(n) == ".csv" by {
      assert n[..|base|] == base && n[|base|..] == ".csv";
    }
    assert base + "_diff_vs_baseline" + ".csv" == base + "_diff_vs_baseline.csv";
  }

  /** The last dot of a CSV name is the one before the extension. */
  lemma CsvDot(base: string)
    ensures LastIndexOf(base + ".csv", '.') == |base|
  {
    CsvExtension(base);
    LastIndexOfAfter(base, '.', "csv");
  }

  lemma CsvExtension(base: string)
    ensures base + ".csv" == base + ['.'] + "csv" && '.' !in "csv"
  {
    assert ".csv" == ['.'] + "csv";
  }

  /** `compare_file`: the output path, the number of rows read and the number of new rows, and
      the lines written to the output file (header and rows), which is nothing when no row is
      new. A path that is not a file, or a file without a MAC column, gives `(None, 0, 0)`. A
      diff row the writer refuses (one with cells past the header) raises, after the header and
      the rows before it have been written. */
  method CompareFile(name: string, file: CsvFile, baseline: set<string>)
    returns (r: Result<(Option<string>, nat, nat)>, written: Option<seq<Row>>)
    ensures r.Ok? ==> r.value.2 <= r.value.1
    ensures file.Missing? || MacColumn(file.rows).None? ==> r == Ok((None, 0, 0)) && written == None
    ensures file.Present? && MacColumn(file.rows).Some? ==>
      var fields := FieldsOrEmpty(file.rows);
      var recs := DictRows(file.rows);
      var diff := DiffRows(recs, MacColumn(file.rows).value, baseline);
      var out := WriteRows(fields, diff);
      && written == (if diff == [] then None else Some([fields] + out.0))
      && r == (if diff == [] || out.1 then Ok((Some(DiffName(name)), |recs|, |diff|)) else Err(WriterError))
  {
    if file.Missing? {
      return Ok((None, 0, 0)), None;
    }
    var field := MacColumn(file.rows);
    if field.None? {
      return Ok((None, 0, 0)), None;
    }
    var recs := DictRows(file.rows);
    var diff := [];
    for i := 0 to |recs|
      invariant diff == DiffRows(recs[..i], field.value, baseline)
    {
      DiffRowsStep(recs, i, field.value, baseline);
      var mac := CellMac(Get(recs[i], field.value));
      if mac != "" && mac !in baseline {
        diff := diff + [recs[i]];
      }
    }
    assert recs[..|recs|] == recs;
    DiffRowsLength(recs, field.value, baseline);
    written := None;
    if diff != [] {
      var lines, ok := WriteCsv(FieldsOrEmpty(file.rows), diff);
      written := Some(lines);
      if !ok {
        return Err(WriterError), written;
      }
    }
    r := Ok((Some(DiffName(name)), |recs|, |diff|));
  }

  /** A diff row read from a file whose rows are no wider than its header is always written
      back. */
  lemma DiffWritable(rows: seq<Row>, field: string, baseline: set<string>)
    requires rows != [] && forall j :: 1 <= j < |rows| ==> |rows[j]| <= |rows[0]|
    ensures WriteRows(rows[0], DiffRows(DictRows(rows), field, baseline)).1
  {
    var diff := DiffRows(DictRows(rows), field, baseline);
    forall k | 0 <= k < |diff| ensures Writable(rows[0], diff[k]) {
      DiffRowsMember(DictRows(rows), field, baseline, diff[k]);
      DictRowWritable(rows, diff[k]);
    }
  }

  /** One more row read: it is appended to the diff exactly when its MAC is new. */
  lemma DiffRowsStep(recs: seq<Record>, i: int, field: string, baseline: set<string>)
    requires 0 <= i < |recs|
    ensures DiffRows(recs[..i + 1], field, baseline) == DiffRows(recs[..i], field, baseline) +
      (if KeepNew(field, baseline, recs[i]).Some? then [recs[i]] else [])
  {
    FilterMapStep(recs, i, (rec: Record) => KeepNew(field, baseline, rec));
  }

  lemma DiffRowsLength(recs: seq<Record>, field: string, baseline: set<string>)
    ensures |DiffRows(recs, field, baseline)| <= |recs|
  {
    FilterMapLength(recs, (rec: Record) => KeepNew(field, baseline, rec));
  }

  // ---------------------------------------------------------------- merging diff files

  /** A text of the form `20\d{6}_\d{6}`. */
  predicate IsTimestamp(t: string) {
    && |t| == 15 && t[0] == '2' && t[1] == '0' && t[8] == '_'
    && (forall k :: 2 <= k < 8 ==> IsDecimalChar(t[k]))
    && (forall k :: 9 <= k < 15 ==> IsDecimalChar(t[k]))
  }

  /** `name` has a timestamp starting at `i`. */
  predicate TimestampAt(name: string, i: int) {
    0 <= i && i + 15 <= |name| && IsTimestamp(name[i..i + 15])
  }

  /** The first position at or after `k` where a timestamp starts, or -1. */
  function TimestampFrom(name: string, k: nat): (r: int)
    ensures r == -1 || (k <= r && TimestampAt(name, r))
    ensures r == -1 ==> forall i :: k <= i < |name| ==> !TimestampAt(name, i)
    ensures r >= 0 ==> forall i :: k <= i < r ==> !TimestampAt(name, i)
    decreases |name| - k
  {
    if k + 15 > |name| then -1
    else if TimestampAt(name, k) then k
    else TimestampFrom(name, k + 1)
  }

  /** `m.group(1) if (m := re.search(r'(20\d{6}_\d{6})', name)) else ''`: the leftmost
      timestamp in the name, or the empty string when there is none. */
  function FirstTimestamp(name: string): (r: string)
    ensures r == "" <==> forall i :: 0 <= i < |name| ==> !TimestampAt(name, i)
    ensures r != "" ==> IsTimestamp(r) && exists i :: (TimestampAt(name, i) && name[i..i + 15] == r
      && forall j :: 0 <= j < i ==> !TimestampAt(name, j))
  {
    var i := TimestampFrom(name, 0);
    if i < 0 then "" else name[i..i + 15]
  }

  /** `row['source_file'] = p.name` and `row['source_timestamp'] = ...`. */
  function Tag(rec: Record, name: string): (r: Record)
    ensures "source_file" in r.cells && "source_timestamp" in r.cells
    ensures r.cells["source_file"] == Some(name) && r.cells["source_timestamp"] == Some(FirstTimestamp(name))
    ensures forall k :: k in r.cells <==> k in rec.cells || k == "source_file" || k == "source_timestamp"
    ensures forall k :: k in rec.cells && k != "source_file" && k != "source_timestamp" ==> r.cells[k] == rec.cells[k]
    ensures r.rest == rec.rest
  {
    Record(rec.cells["source_file" := Some(name)]["source_timestamp" := Some(FirstTimestamp(name))], rec.rest)
  }

  /** A merge candidate: the normalised MAC and the tagged row. */
  type Candidate = (string, Record)

  /** The rows of one file with a non-empty MAC, in row order. */
  function RowCandidates(name: string, field: string, recs: seq<Record>): seq<Candidate>
    decreases |recs|
  {
    if recs == [] then []
    else
      var m := CellMac(Get(recs[0], field));
      (if m == "" then [] else [(m, Tag(recs[0], name))]) + RowCandidates(name, field, recs[1..])
  }

  /** The candidates of one file: none when it has no MAC column. */
  function FileCandidates(file: (string, seq<Row>)): seq<Candidate> {
    match MacColumn(file.1)
    case None => []
    case Some(f) => RowCandidates(file.0, f, DictRows(file.1))
  }

  /** All candidates, in file order and then row order. */
  function Candidates(files: seq<(string, seq<Row>)>): seq<Candidate>
    decreases |files|
  {
    if files == [] then [] else FileCandidates(files[0]) + Candidates(files[1..])
  }

  /** The MACs of a list of candidates. */
  function Keys(cs: seq<Candidate>): set<string> {
    set i | 0 <= i < |cs| :: cs[i].0
  }

  /** The first candidate of every MAC not yet in `seen`, in order: the `seen` set of
      `merge_files`. */
  function Dedup(cs: seq<Candidate>, seen: set<string>): (r: seq<Candidate>)
    ensures |r| <= |cs|
    decreases |cs|
  {
    if cs == [] then []
    else if cs[0].0 in seen then Dedup(cs[1..], seen)
    else [cs[0]] + Dedup(cs[1..], seen + {cs[0].0})
  }

  /** The kept rows. */
  function Values(cs: seq<Candidate>): (r: seq<Record>)
    ensures |r| == |cs| && forall i :: 0 <= i < |cs| ==> r[i] == cs[i].1
  {
    seq(|cs|, i requires 0 <= i < |cs| => cs[i].1)
  }

  /** No two kept rows share a MAC, and none was seen before. */
  lemma {:induction false} DedupDistinct(cs: seq<Candidate>, seen: set<string>)
    ensures forall i :: 0 <= i < |Dedup(cs, seen)| ==> Dedup(cs, seen)[i].0 !in seen
    ensures forall i, j :: 0 <= i < j < |Dedup(cs, seen)| ==> Dedup(cs, seen)[i].0 != Dedup(cs, seen)[j].0
    decreases |cs|
  {
    if cs != [] {
      if cs[0].0 in seen {
        DedupDistinct(cs[1..], seen);
      } else {
        DedupDistinct(cs[1..], seen + {cs[0].0});
      }
    }
  }

  /** A candidate is kept exactly when it is the first one with its MAC and that MAC was not
      seen before. */
  lemma {:induction false} DedupFirst(cs: seq<Candidate>, seen: set<string>, c: Candidate)
    ensures c in Dedup(cs, seen) <==>
      exists i :: 0 <= i < |cs| && cs[i] == c && c.0 !in seen && forall j :: 0 <= j < i ==> cs[j].0 != c.0
    decreases |cs|
  {
    if cs != [] {
      var seen' := if cs[0].0 in seen then seen else seen + {cs[0].0};
      DedupFirst(cs[1..], seen', c);
      var tail := cs[1..];
      assert forall i :: 0 <= i < |tail| ==> tail[i] == cs[i + 1];
      if c in Dedup(cs, seen) && c !in Dedup(tail, seen') {
        assert c == cs[0];
      } else if c in Dedup(tail, seen') {
        var i :| 0 <= i < |tail| && tail[i] == c && c.0 !in seen' && forall j :: 0 <= j < i ==> tail[j].0 != c.0;
        assert cs[i + 1] == c;
      }
      if exists i :: 0 <= i < |cs| && cs[i] == c && c.0 !in seen && forall j :: 0 <= j < i ==> cs[j].0 != c.0 {
        var i :| 0 <= i < |cs| && cs[i] == c && c.0 !in seen && forall j :: 0 <= j < i ==> cs[j].0 != c.0;
        if i > 0 {
          assert tail[i - 1] == c;
          assert forall j :: 0 <= j < i - 1 ==> tail[j].0 == cs[j + 1].0;
        }
      }
    }
  }

  lemma KeysAppend(a: seq<Candidate>, b: seq<Candidate>)
    ensures Keys(a + b) == Keys(a) + Keys(b)
  {
    forall m | m in Keys(a + b) ensures m in Keys(a) + Keys(b) {
      var i :| 0 <= i < |a + b| && (a + b)[i].0 == m;
      if i >= |a| { assert b[i - |a|].0 == m; } else { assert a[i].0 == m; }
    }
    forall m | m in Keys(a) ensures m in Keys(a + b) {
      var i :| 0 <= i < |a| && a[i].0 == m;
      assert (a + b)[i].0 == m;
    }
    forall m | m in Keys(b) ensures m in Keys(a + b) {
      var i :| 0 <= i < |b| && b[i].0 == m;
      assert (a + b)[|a| + i].0 == m;
    }
  }

  lemma KeysSingle(c: Candidate)
    ensures Keys([c]) == {c.0}
  {
    assert [c][0].0 == c.0;
  }

  /** Every MAC not seen before survives. */
  lemma {:induction false} DedupKeys(cs: seq<Candidate>, seen: set<string>)
    ensures Keys(Dedup(cs, seen)) == Keys(cs) - seen
    decreases |cs|
  {
    if cs != [] {
      var tail := cs[1..];
      assert cs == [cs[0]] + tail;
      KeysAppend([cs[0]], tail);
      KeysSingle(cs[0]);
      if cs[0].0 in seen {
        DedupKeys(tail, seen);
      } else {
        DedupKeys(tail, seen + {cs[0].0});
        KeysAppend([cs[0]], Dedup(tail, seen + {cs[0].0}));
      }
    }
  }

  /** The MACs one file offers to the merge are the MACs `load_macs_from_csv` reads from it. */
  /** The MACs of a file's candidates: the first row's, if non-empty, and the later rows'. */
  lemma RowCandidatesKeysHead(name: string, field: string, recs: seq<Record>)
    requires recs != []
    ensures var mac := CellMac(Get(recs[0], field));
      Keys(RowCandidates(name, field, recs)) ==
        (if mac == "" then {} else {mac}) + Keys(RowCandidates(name, field, recs[1..]))
  {
    var mac := CellMac(Get(recs[0], field));
    var head: seq<Candidate> := if mac == "" then [] else [(mac, Tag(recs[0], name))];
    KeysAppend(head, RowCandidates(name, field, recs[1..]));
    if mac != "" { KeysSingle((mac, Tag(recs[0], name))); }
  }

  lemma {:induction false} RowCandidatesKeys(name: string, field: string, recs: seq<Record>, m: string)
    ensures m in Keys(RowCandidates(name, field, recs)) <==>
      exists k :: 0 <= k < |recs| && MacEntry(field, recs[k]) == Some(m)
    decreases |recs|
  {
    if recs != [] {
      var tail := recs[1..];
      RowCandidatesKeys(name, field, tail, m);
      RowCandidatesKeysHead(name, field, recs);
      var mac := CellMac(Get(recs[0], field));
      assert MacEntry(field, recs[0]) == Some(m) <==> mac != "" && m == mac;
      assert (exists k :: 0 <= k < |recs| && MacEntry(field, recs[k]) == Some(m)) <==>
        MacEntry(field, recs[0]) == Some(m) || exists k :: 0 <= k < |tail| && MacEntry(field, tail[k]) == Some(m)
      by {
        if exists k :: 0 <= k < |recs| && MacEntry(field, recs[k]) == Some(m) {
          var k :| 0 <= k < |recs| && MacEntry(field, recs[k]) == Some(m);
          if k > 0 { assert tail[k - 1] == recs[k]; }
        }
        if exists k :: 0 <= k < |tail| && MacEntry(field, tail[k]) == Some(m) {
          var k :| 0 <= k < |tail| && MacEntry(field, tail[k]) == Some(m);
          assert recs[k + 1] == tail[k];
        }
      }
    }
  }

  lemma FileCandidatesKeys(file: (string, seq<Row>), m: string)
    ensures m in Keys(FileCandidates(file)) <==> m in LoadedMacs(Present(file.1))
  {
    LoadedMacsMember(Present(file.1), m);
    match MacColumn(file.1) {
      case None =>
      case Some(f) =>
        var recs := DictRows(file.1);
        RowCandidatesKeys(file.0, f, recs, m);
        FilterSetMember(recs, (rec: Record) => MacEntry(f, rec), m);
    }
  }

  /** The MACs offered to the merge are the union of the MACs of the files with a MAC column. */
  lemma {:induction false} CandidatesKeys(files: seq<(string, seq<Row>)>, m: string)
    ensures m in Keys(Candidates(files)) <==>
      exists i :: 0 <= i < |files| && m in LoadedMacs(Present(files[i].1))
    decreases |files|
  {
    if files != [] {
      var tail := files[1..];
      KeysAppend(FileCandidates(files[0]), Candidates(tail));
      FileCandidatesKeys(files[0], m);
      CandidatesKeys(tail, m);
      assert forall i :: 0 <= i < |tail| ==> tail[i] == files[i + 1];
      if exists i :: 0 <= i < |files| && m in LoadedMacs(Present(files[i].1)) {
        var i :| 0 <= i < |files| && m in LoadedMacs(Present(files[i].1));
        if i > 0 { assert m in LoadedMacs(Present(tail[i - 1].1)); }
      }
    }
  }

  /** Each candidate of a file is one of its rows with a non-empty MAC, tagged with the file. */
  lemma {:induction false} RowCandidatesOrigin(name: string, field: string, recs: seq<Record>, c: Candidate)
    requires c in RowCandidates(name, field, recs)
    ensures c.0 != "" && exists rec :: rec in recs && c == (CellMac(Get(rec, field)), Tag(rec, name))
    decreases |recs|
  {
    var mac := CellMac(Get(recs[0], field));
    var head: seq<Candidate> := if mac == "" then [] else [(mac, Tag(recs[0], name))];
    if c !in head {
      RowCandidatesOrigin(name, field, recs[1..], c);
      var rec :| rec in recs[1..] && c == (CellMac(Get(rec, field)), Tag(rec, name));
    }
  }

  /** Every merged row comes from a file that has a MAC column, carries that file's name and
      timestamp, and is keyed by its own non-empty MAC. */
  lemma {:induction false} CandidateOrigin(files: seq<(string, seq<Row>)>, c: Candidate)
    requires c in Candidates(files)
    ensures exists i :: (0 <= i < |files| && MacColumn(files[i].1).Some? && c.0 != ""
      && exists rec :: (rec in DictRows(files[i].1)
        && c == (CellMac(Get(rec, MacColumn(files[i].1).value)), Tag(rec, files[i].0))))
    decreases |files|
  {
    if c in FileCandidates(files[0]) {
      RowCandidatesOrigin(files[0].0, MacColumn(files[0].1).value, DictRows(files[0].1), c);
    } else {
      CandidateOrigin(files[1..], c);
      var i :| 0 <= i < |files[1..]| && MacColumn(files[1..][i].1).Some? && c.0 != ""
        && exists rec :: (rec in DictRows(files[1..][i].1)
          && c == (CellMac(Get(rec, MacColumn(files[1..][i].1).value)), Tag(rec, files[1..][i].0)));
      assert files[1..][i] == files[i + 1];
    }
  }

  /** The field names `merge_files` returns: the first file's header (empty for an empty file),
      whether or not it has a MAC column, plus the two metadata columns; nothing for no files. */
  function MergeFieldnames(files: seq<(string, seq<Row>)>): (r: seq<string>)
    ensures files == [] ==> r == []
    ensures files != [] ==> r == FieldsOrEmpty(files[0].1) + ["source_file", "source_timestamp"]
  {
    if files == [] then [] else FieldsOrEmpty(files[0].1) + ["source_file", "source_timestamp"]
  }

  lemma DedupSkip(c: Candidate, rest: seq<Candidate>, seen: set<string>)
    requires c.0 in seen
    ensures Dedup([c] + rest, seen) == Dedup(rest, seen)
  {
    assert ([c] + rest)[1..] == rest;
  }

  lemma DedupKeep(c: Candidate, rest: seq<Candidate>, seen: set<string>)
    requires c.0 !in seen
    ensures Dedup([c] + rest, seen) == [c] + Dedup(rest, seen + {c.0})
  {
    assert ([c] + rest)[1..] == rest;
  }

  lemma ValuesAppend(a: seq<Candidate>, b: seq<Candidate>)
    ensures Values(a + b) == Values(a) + Values(b)
  {
  }

  /** A new MAC keeps its row in front of the rest. */
  lemma DedupKeepValues(c: Candidate, rest: seq<Candidate>, seen: set<string>)
    requires c.0 !in seen
    ensures Values(Dedup([c] + rest, seen)) == [c.1] + Values(Dedup(rest, seen + {c.0}))
  {
    DedupKeep(c, rest, seen);
    ValuesAppend([c], Dedup(rest, seen + {c.0}));
    assert Values([c]) == [c.1];
  }

  /** The candidates from row `j` on: row `j`'s, if its MAC is non-empty, then the later rows'. */
  lemma RowCandidatesAt(name: string, field: string, recs: seq<Record>, j: nat)
    requires j < |recs|
    ensures var mac := CellMac(Get(recs[j], field));
      RowCandidates(name, field, recs[j..]) ==
        (if mac == "" then [] else [(mac, Tag(recs[j], name))]) + RowCandidates(name, field, recs[j + 1..])
  {
    assert recs[j..][1..] == recs[j + 1..];
    assert recs[j..][0] == recs[j];
  }

  /** One row of the inner loop of `merge_files`: skipped when its MAC is empty or seen,
      kept otherwise. */
  lemma MergeRowStep(name: string, field: string, recs: seq<Record>, j: nat, later: seq<Candidate>, seen: set<string>)
    requires j < |recs|
    ensures
      var mac := CellMac(Get(recs[j], field));
      var rest := RowCandidates(name, field, recs[j + 1..]) + later;
      Values(Dedup(RowCandidates(name, field, recs[j..]) + later, seen)) ==
        if mac == "" || mac in seen then Values(Dedup(rest, seen))
        else [Tag(recs[j], name)] + Values(Dedup(rest, seen + {mac}))
  {
    var mac := CellMac(Get(recs[j], field));
    var rest := RowCandidates(name, field, recs[j + 1..]) + later;
    RowCandidatesAt(name, field, recs, j);
    if mac != "" {
      var c := (mac, Tag(recs[j], name));
      assert RowCandidates(name, field, recs[j..]) + later == [c] + rest;
      if mac in seen {
        DedupSkip(c, rest, seen);
      } else {
        DedupKeepValues(c, rest, seen);
      }
    } else {
      assert RowCandidates(name, field, recs[j..]) + later == rest;
    }
  }

  lemma CandidatesStep(files: seq<(string, seq<Row>)>, i: nat)
    requires i < |files|
    ensures Candidates(files[i..]) == FileCandidates(files[i]) + Candidates(files[i + 1..])
  {
    assert files[i..][1..] == files[i + 1..];
  }

  /** The inner loop of `merge_files`: the rows of one file, against the MACs seen so far. */
  method MergeRows(name: string, field: string, recs: seq<Record>, ghost later: seq<Candidate>,
                   seen0: set<string>, rows0: seq<Record>)
    returns (seen: set<string>, rows: seq<Record>)
    ensures rows0 + Values(Dedup(RowCandidates(name, field, recs) + later, seen0))
         == rows + Values(Dedup(later, seen))
  {
    seen, rows := seen0, rows0;
    ghost var target := rows0 + Values(Dedup(RowCandidates(name, field, recs) + later, seen0));
    assert recs[0..] == recs;
    for j := 0 to |recs|
      invariant target == rows + Values(Dedup(RowCandidates(name, field, recs[j..]) + later, seen))
    {
      MergeRowStep(name, field, recs, j, later, seen);
      var mac := CellMac(Get(recs[j], field));
      if mac == "" || mac in seen {
        continue;
      }
      var row := Tag(recs[j], name);
      ghost var done := Values(Dedup(RowCandidates(name, field, recs[j + 1..]) + later, seen + {mac}));
      assert rows + ([row] + done) == (rows + [row]) + done;
      rows := rows + [row];
      seen := seen + {mac};
    }
    assert recs[|recs|..] == [];
    assert [] + later == later;
  }

  /** `merge_files`, over the files in the order given (the scripts sort the glob). */
  method MergeFiles(files: seq<(string, seq<Row>)>) returns (fieldnames: seq<string>, rows: seq<Record>)
    ensures fieldnames == MergeFieldnames(files)
    ensures rows == Values(Dedup(Candidates(files), {}))
  {
    ghost var target := Values(Dedup(Candidates(files), {}));
    var seen: set<string> := {};
    fieldnames, rows := [], [];
    for i := 0 to |files|
      invariant target == rows + Values(Dedup(Candidates(files[i..]), seen))
      invariant i == 0 ==> fieldnames == []
      invariant i > 0 ==> fieldnames == MergeFieldnames(files)
    {
      CandidatesStep(files, i);
      if i == 0 {
        fieldnames := FieldsOrEmpty(files[i].1) + ["source_file", "source_timestamp"];
      }
      var field := MacColumn(files[i].1);
      if field.None? {
        assert FileCandidates(files[i]) == [];
        assert Candidates(files[i..]) == Candidates(files[i + 1..]);
        continue;
      }
      assert FileCandidates(files[i]) == RowCandidates(files[i].0, field.value, DictRows(files[i].1));
      seen, rows := MergeRows(files[i].0, field.value, DictRows(files[i].1), Candidates(files[i + 1..]), seen, rows);
    }
  }

  /** The merge step of `main`: nothing for no diff files; otherwise the merged rows go to one
      file under the merged header, the writer raising at the first row with a key outside it. */
  method WriteMerged(files: seq<(string, seq<Row>)>) returns (written: Option<seq<Row>>, ok: bool)
    ensures files == [] ==> written == None && ok
    ensures files != [] ==>
      var out := WriteRows(MergeFieldnames(files), Values(Dedup(Candidates(files), {})));
      written == Some([MergeFieldnames(files)] + out.0) && ok == out.1
  {
    if files == [] {
      return None, true;
    }
    var fieldnames, rows := MergeFiles(files);
    var lines;
    lines, ok := WriteCsv(fieldnames, rows);
    written := Some(lines);
  }

  /** A tagged record can be written under its header and the two metadata columns when the
      record could be written under the header. */
  lemma TagWritable(header: seq<string>, rec: Record, name: string)
    requires Writable(header, rec)
    ensures Writable(header + ["source_file", "source_timestamp"], Tag(rec, name))
  {
  }

  /** Each record of a file whose rows are no wider than its header can be written under
      that header. */
  lemma DictRowWritable(rows: seq<Row>, rec: Record)
    requires rec in DictRows(rows)
    requires forall j :: 1 <= j < |rows| ==> |rows[j]| <= |rows[0]|
    ensures Writable(FieldsOrEmpty(rows), rec)
  {
    RecordsMember(rows[0], rows[1..], rec);
    var j :| 0 <= j < |rows[1..]| && rows[1..][j] != [] && rec == RecordOf(rows[0], rows[1..][j]);
    assert rows[1..][j] == rows[j + 1];
    RecordOfWritable(rows[0], rows[j + 1]);
  }

  /** A candidate from a file whose rows are no wider than its header can be written under
      that header and the metadata columns. */
  lemma CandidateWritable(files: seq<(string, seq<Row>)>, c: Candidate)
    requires c in Candidates(files)
    requires forall i, j :: 0 <= i < |files| && 1 <= j < |files[i].1| ==> |files[i].1[j]| <= |files[i].1[0]|
    ensures exists i :: 0 <= i < |files| && Writable(FieldsOrEmpty(files[i].1) + ["source_file", "source_timestamp"], c.1)
  {
    CandidateOrigin(files, c);
    var i :| 0 <= i < |files| && MacColumn(files[i].1).Some? && c.0 != ""
      && exists rec :: (rec in DictRows(files[i].1)
        && c == (CellMac(Get(rec, MacColumn(files[i].1).value)), Tag(rec, files[i].0)));
    var rec :| rec in DictRows(files[i].1)
      && c == (CellMac(Get(rec, MacColumn(files[i].1).value)), Tag(rec, files[i].0));
    DictRowWritable(files[i].1, rec);
    TagWritable(FieldsOrEmpty(files[i].1), rec, files[i].0);
  }

  /** When every diff file has the first one's header and no row wider than it, every merged
      row is written: its keys are that header and the two metadata columns. */
  lemma MergeWritable(files: seq<(string, seq<Row>)>)
    requires files != []
    requires forall i :: 0 <= i < |files| ==> FieldsOrEmpty(files[i].1) == FieldsOrEmpty(files[0].1)
    requires forall i, j :: 0 <= i < |files| && 1 <= j < |files[i].1| ==> |files[i].1[j]| <= |files[i].1[0]|
    ensures WriteRows(MergeFieldnames(files), Values(Dedup(Candidates(files), {}))).1
  {
    var fields := MergeFieldnames(files);
    var kept := Dedup(Candidates(files), {});
    forall k | 0 <= k < |kept| ensures Writable(fields, Values(kept)[k]) {
      DedupFirst(Candidates(files), {}, kept[k]);
      CandidateWritable(files, kept[k]);
    }
  }
}
