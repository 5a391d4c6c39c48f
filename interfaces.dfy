/** Screen scraping of `show interfaces description` and `show mac address-table`: the
    three-token line pattern, the Cisco column layout taken from the header line, the line
    filters of each script, and the join of MAC-table rows with the interface map. */
module Interfaces {
  import opened Wrappers
  import opened Text
  import opened Folds
  import opened Rules

  /** The status columns of one interface. */
  datatype Status = Status(admin: string, oper: string, description: string)

  /** A row of the interface-description files: the host it came from and its columns. */
  datatype Entry = Entry(host: string, iface: string, admin: string, oper: string, description: string)

  // ---------------------------------------------------------------- the three-token pattern

  /** The text after the first `n` tokens starts with a non-space character, if anything. */
  lemma {:induction false} AfterTokensStart(s: string, n: nat)
    ensures AfterTokens(s, n) == [] || !IsSpace(AfterTokens(s, n)[0])
    decreases n
  {
    if n > 0 {
      AfterTokensStart(DropToken(s), n - 1);
    }
  }

  /** `^(\S+)\s+(\S+)\s+(\S+)(?:\s+(.*))?$` applied to a stripped line: it matches exactly when
      the line has at least three tokens; the groups are those tokens, and the description is
      the rest of the line after the third token with its leading whitespace removed, `''`
      when there is none. The same holds for the Cisco variant `...(\S+)\s*(.*)$`. */
  function IntFields(l: string): (r: Option<(string, Status)>)
    ensures r.Some? <==> |Tokens(l)| >= 3
    ensures r.Some? ==>
      [r.value.0, r.value.1.admin, r.value.1.oper] + Tokens(r.value.1.description) == Tokens(l)
    ensures r.Some? ==> r.value.1.description == [] || !IsSpace(r.value.1.description[0])
  {
    var ts := Tokens(l);
    if |ts| < 3 then None
    else
      TokensAfter(l, 3);
      AfterTokensStart(l, 3);
      assert ts == ts[..3] + ts[3..];
      Some((ts[0], Status(ts[1], ts[2], AfterTokens(l, 3))))
  }

  lemma DropTokenOfJoin(a: string, rest: string)
    requires IsWord(a)
    ensures DropToken(a + " " + rest) == " " + rest
  {
    var s := a + " " + rest;
    assert s == a + (" " + rest);
    LStripOfStripped(s);
    TakeWordOf(a, " " + rest);
    assert s[|a|..] == " " + rest;
  }

  lemma DropTokenOfWord(a: string)
    requires IsWord(a)
    ensures DropToken(a) == []
  {
    LStripOfStripped(a);
    assert a + [] == a;
    TakeWordOf(a, []);
  }

  lemma DropTokenOfSpaced(s: string)
    ensures DropToken(" " + s) == DropToken(s)
  {
    assert (" " + s)[1..] == s;
  }

  /** Leading whitespace changes neither the tokens nor what follows them. */
  lemma AfterTokensSpaced(s: string, n: nat)
    ensures AfterTokens(" " + s, n) == AfterTokens(s, n)
  {
    if n > 0 {
      DropTokenOfSpaced(s);
    }
  }

  /** After a leading word and a space, the `n + 1`-th rest is the `n`-th rest of the text. */
  lemma AfterTokensOfJoin(a: string, rest: string, n: nat)
    requires IsWord(a)
    ensures AfterTokens(a + " " + rest, n + 1) == AfterTokens(rest, n)
  {
    DropTokenOfJoin(a, rest);
    AfterTokensSpaced(rest, n);
  }

  /** The last printed column: `oper` alone, or `oper` and the description after a space. */
  lemma LastColumns(oper: string, description: string)
    requires IsWord(oper)
    requires description == [] || !IsSpace(description[0])
    ensures var t := oper + (if description == [] then "" else " " + description);
      |Tokens(t)| >= 1 && Tokens(t)[0] == oper && AfterTokens(t, 1) == description
  {
    if description == [] {
      assert oper + "" == oper;
      TokensOfWord(oper);
      DropTokenOfWord(oper);
    } else {
      assert oper + (" " + description) == oper + " " + description;
      TokensOfJoin(oper, description);
      AfterTokensOfJoin(oper, description, 0);
      LStripOfStripped(description);
    }
  }

  /** A line printed as `iface admin oper description` parses back into exactly those
      columns. */
  lemma IntFieldsOfPrinted(iface: string, admin: string, oper: string, description: string)
    requires IsWord(iface) && IsWord(admin) && IsWord(oper)
    requires description == [] || !IsSpace(description[0])
    ensures var line := iface + " " + admin + " " + oper + (if description == [] then "" else " " + description);
      IntFields(line) == Some((iface, Status(admin, oper, description)))
  {
    var last := oper + (if description == [] then "" else " " + description);
    var line := iface + " " + admin + " " + oper + (if description == [] then "" else " " + description);
    var inner := admin + " " + last;
    assert line == iface + " " + inner;
    LastColumns(oper, description);
    TokensOfJoin(admin, last);
    TokensOfJoin(iface, inner);
    AfterTokensOfJoin(admin, last, 1);
    AfterTokensOfJoin(iface, inner, 2);
    IntFieldsOfTokens(line, iface, admin, Tokens(last), description);
  }

  /** The columns are the first three tokens and the rest after them. */
  lemma IntFieldsOfTokens(l: string, a: string, b: string, ts: seq<string>, d: string)
    requires Tokens(l) == [a] + ([b] + ts) && |ts| >= 1
    requires AfterTokens(l, 3) == d
    ensures IntFields(l) == Some((a, Status(b, ts[0], d)))
  {
    assert Tokens(l)[..3] == [a, b, ts[0]];
  }

  // ---------------------------------------------------------------- line filters

  /** The filter of the Juniper scripts (on the stripped line): empty, the header, a pager. */
  predicate SkippedShort(l: string) {
    l == [] || StartsWith(Lower(l), "interface") || Contains(Lower(l), "--more--")
  }

  /** The filter of the Cisco-aware scripts: also `%` error lines and `show ` command echoes. */
  predicate SkippedLong(l: string) {
    SkippedShort(l) || StartsWith(Lower(l), "%") || StartsWith(Lower(l), "show ")
  }

  /** The filter in use: `strict` for the longer one. */
  predicate Skipped(l: string, strict: bool) {
    if strict then SkippedLong(l) else SkippedShort(l)
  }

  /** The entry a line of output gives: strip it, drop it if filtered, otherwise parse it. */
  function LineEntry(host: string, strict: bool, line: string): Option<Entry> {
    var l := Strip(line);
    if Skipped(l, strict) then None
    else match IntFields(l)
      case None => None
      case Some(p) => Some(Entry(host, p.0, p.1.admin, p.1.oper, p.1.description))
  }

  /** The same, as the function the loop applies to each line. */
  function EntryOf(host: string, strict: bool): string -> Option<Entry> {
    (line: string) => LineEntry(host, strict, line)
  }

  /** The entries of one host's output, one per parsed line. */
  function Entries(host: string, lines: seq<string>, strict: bool): seq<Entry> {
    FilterMap(lines, EntryOf(host, strict))
  }

  /** A line yields an entry exactly when it survives the filter once stripped and has three
      tokens; the entry carries the host and the parsed columns. */
  lemma EntryOfLine(host: string, strict: bool, line: string, e: Entry)
    ensures LineEntry(host, strict, line) == Some(e) <==>
      && e.host == host && !Skipped(Strip(line), strict)
      && IntFields(Strip(line)) == Some((e.iface, Status(e.admin, e.oper, e.description)))
  {
  }

  /** The entries are exactly what the lines yield: one per yielding line. */
  lemma EntriesMember(host: string, lines: seq<string>, strict: bool, e: Entry)
    ensures e in Entries(host, lines, strict) <==>
      exists i :: 0 <= i < |lines| && EntryOf(host, strict)(lines[i]) == Some(e)
  {
    FilterMapMember(lines, EntryOf(host, strict), e);
  }

  /** Every line contributes on its own and in order: duplicates are kept, nothing merges. */
  lemma EntriesAppend(host: string, a: seq<string>, b: seq<string>, strict: bool)
    ensures Entries(host, a + b, strict) == Entries(host, a, strict) + Entries(host, b, strict)
  {
    FilterMapAppend(a, b, EntryOf(host, strict));
  }

  /** Example: an echoed command with three words is dropped by the longer filter but parsed as an
      interface by the Juniper script's shorter one. */
  lemma EchoParsedByShortFilter(host: string)
    ensures LineEntry(host, true, "show interfaces description") == None
    ensures LineEntry(host, false, "show interfaces description")
      == Some(Entry(host, "show", "interfaces", "description", ""))
  {
    var l := "show interfaces description";
    assert Strip(l) == l by { StripOfStripped(l); }
    EchoFilters(l);
    EchoFields(l);
    EntryOfLine(host, false, l, Entry(host, "show", "interfaces", "description", ""));
  }

  lemma EchoFields(l: string)
    requires l == "show interfaces description"
    ensures IntFields(l) == Some(("show", Status("interfaces", "description", "")))
  {
    EchoSpelled(l);
    EchoWords();
    IntFieldsOfWords("show", "interfaces", "description");
  }

  /** The echoed command is three words joined by single spaces. */
  lemma EchoSpelled(l: string)
    requires l == "show interfaces description"
    ensures l == "show" + " " + "interfaces" + " " + "description"
  {
  }

  lemma EchoWords()
    ensures IsWord("show") && IsWord("interfaces") && IsWord("description")
  {
    WordOfLetters("show");
    WordOfLetters("interfaces");
    WordOfLetters("description");
  }

  /** Three words and no description parse back into those columns and an empty description. */
  lemma IntFieldsOfWords(iface: string, admin: string, oper: string)
    requires IsWord(iface) && IsWord(admin) && IsWord(oper)
    ensures IntFields(iface + " " + admin + " " + oper) == Some((iface, Status(admin, oper, "")))
  {
    IntFieldsOfPrinted(iface, admin, oper, "");
    assert iface + " " + admin + " " + oper + "" == iface + " " + admin + " " + oper;
  }

  /** Lower-case letters are not whitespace. */
  lemma WordOfLetters(w: string)
    requires w != [] && forall j :: 0 <= j < |w| ==> 'a' <= w[j] <= 'z'
    ensures IsWord(w)
  {
  }

  lemma EchoFilters(l: string)
    requires l == "show interfaces description"
    ensures SkippedLong(l) && !SkippedShort(l)
  {
    EchoIsCommand(l);
    var low := Lower(l);
    assert low[0] == 's';
    assert '-' !in low by {
      forall i | 0 <= i < |low| ensures low[i] != '-' {
        assert l[i] != '-';
      }
    }
    NoDashes(low);
  }

  lemma EchoIsCommand(l: string)
    requires l == "show interfaces description"
    ensures StartsWith(Lower(l), "show ")
  {
    assert Lower(l)[..5] == "show ";
  }

  /** Text without a `-` contains no pager marker. */
  lemma {:induction false} NoDashes(s: string)
    requires '-' !in s
    ensures !Contains(s, "--more--")
    decreases |s|
  {
    if s != [] {
      assert !StartsWith(s, "--more--") by {
        if |s| >= 8 { assert s[0] != '-'; assert s[..8][0] == s[0]; }
      }
      assert forall c :: c in s[1..] ==> c in s;
      NoDashes(s[1..]);
    }
  }

  /** The description scripts: `for line in lines: ... all_data.append(entry)`. */
  method ParseEntries(host: string, output: string, strict: bool) returns (entries: seq<Entry>)
    ensures entries == Entries(host, SplitLines(output), strict)
  {
    entries := Collect(SplitLines(output), EntryOf(host, strict));
  }

  // ---------------------------------------------------------------- the interface map

  /** A line of the Juniper branch, keyed by interface. */
  function JuniperRow(line: string): (r: Option<(string, Status)>)
    ensures r.Some? ==> !SkippedShort(Strip(line)) && r == IntFields(Strip(line))
    ensures r.None? ==> SkippedShort(Strip(line)) || |Tokens(Strip(line))| < 3
  {
    var l := Strip(line);
    if SkippedShort(l) then None else IntFields(l)
  }

  /** A line of the Cisco branch without a header: the longer filter, and the description
      stripped. */
  function CiscoRow(line: string): (r: Option<(string, Status)>)
    ensures r.Some? <==> !SkippedLong(Strip(line)) && |Tokens(Strip(line))| >= 3
  {
    var l := Strip(line);
    if SkippedLong(l) then None
    else match IntFields(l)
      case None => None
      case Some(p) => Some((p.0, p.1.(description := Strip(p.1.description))))
  }

  /** A candidate header: it names the interface, status and protocol columns. */
  predicate IsHeader(l: string) {
    l != [] && Contains(Lower(l), "interface") && Contains(Lower(l), "status") && Contains(Lower(l), "protocol")
  }

  /** The column offsets read off the header. */
  datatype Columns = Columns(iface: nat, status: nat, proto: nat, desc: nat)

  /** Where a column name first occurs in the lower-cased header. */
  predicate FirstAt(low: string, name: string, k: nat) {
    k <= |low| && StartsWith(low[k..], name) && forall j :: 0 <= j < k ==> !StartsWith(low[j..], name)
  }

  /** The offsets of the interface, status and protocol names; that of the description name
      when there is one, and eight past the protocol column otherwise. */
  function ColumnsOf(header: string): (c: Columns)
    requires IsHeader(header)
    ensures FirstAt(Lower(header), "interface", c.iface)
    ensures FirstAt(Lower(header), "status", c.status)
    ensures FirstAt(Lower(header), "protocol", c.proto)
    ensures Contains(Lower(header), "description") ==> FirstAt(Lower(header), "description", c.desc)
    ensures !Contains(Lower(header), "description") ==> c.desc == c.proto + 8
  {
    var low := Lower(header);
    var d := Find(low, "description");
    Columns(Find(low, "interface"), Find(low, "status"), Find(low, "protocol"),
      if d == -1 then Find(low, "protocol") + 8 else d)
  }

  /** The command the script sent, whose echo the header mode drops. */
  const SentCommand := "show interfaces description"

  /** Lines under the header that give no row: empty ones, pager prompts, `%` errors and
      echoes of the command. */
  predicate NotARow(line: string) {
    line == [] || Contains(Lower(line), "--more--") || StartsWith(Lower(line), "%")
      || StartsWith(Strip(Lower(line)), SentCommand)
  }

  /** A line under the header: each field is the stripped slice between two column offsets,
      the description running to the end of the line; a row with no interface name is
      dropped. */
  function RowOf(c: Columns, line: string): Option<(string, Status)> {
    if NotARow(line) then None
    else
      var iface := Strip(PySlice(line, c.iface, c.status));
      if iface == [] then None
      else Some((iface, Status(Strip(PySlice(line, c.status, c.proto)), Strip(PySlice(line, c.proto, c.desc)),
        if c.desc < |line| then Strip(line[c.desc..]) else "")))
  }

  /** The same, as the function the loop applies to each line. */
  function HeaderRow(c: Columns): string -> Option<(string, Status)> {
    (line: string) => RowOf(c, line)
  }

  /** `i` is the first header line. */
  function HeaderIndex(lines: seq<string>): (h: int)
    ensures -1 <= h < |lines|
    ensures h >= 0 ==> IsHeader(lines[h]) && forall j :: 0 <= j < h ==> !IsHeader(lines[j])
    ensures h == -1 <==> forall j :: 0 <= j < |lines| ==> !IsHeader(lines[j])
  {
    FirstIndex(lines, IsHeader)
  }

  /** The Cisco branch: the rows under the first header line in its column layout, or, with no
      header, the three-token pattern on every line. */
  function CiscoTable(lines: seq<string>): map<string, Status> {
    var h := HeaderIndex(lines);
    if h >= 0 then FoldMap(lines[h + 1..], HeaderRow(ColumnsOf(lines[h])))
    else FoldMap(lines, CiscoRow)
  }

  /** The interface map of one host: the Cisco layout for a Cisco banner, the three-token
      pattern for Juniper and unknown devices alike. */
  function InterfaceTable(vendor: Vendor, lines: seq<string>): map<string, Status> {
    if vendor == Cisco then CiscoTable(lines) else FoldMap(lines, JuniperRow)
  }

  /** A padded cell: a word followed by blanks. */
  lemma StripPaddedCell(w: string, pad: string)
    requires Trimmed(w) && AllSpace(pad)
    ensures Strip(w + pad) == w
  {
    if w == [] {
      assert w + pad == pad + [];
      LStripPadded(pad, []);
    } else {
      LStripOfStripped(w + pad);
      RStripPadded(w, pad);
    }
  }

  /** No whitespace at either end. */
  predicate Trimmed(w: string) {
    w == [] || (!IsSpace(w[0]) && !IsSpace(w[|w| - 1]))
  }

  lemma PySliceWhole(a: string, b: string, c: string)
    ensures PySlice(a + b + c, |a|, |a| + |b|) == b
  {
    if b != [] {
      assert (a + b + c)[|a|..|a| + |b|] == b;
    }
  }

  /** The slices between the column offsets of a row laid out in those columns. */
  lemma AlignedSlices(c: Columns, a: string, b: string, d: string, desc: string)
    requires c.iface == 0 && c.status == |a| && c.proto == c.status + |b| && c.desc == c.proto + |d|
    ensures var line := a + b + d + desc;
      && PySlice(line, c.iface, c.status) == a && PySlice(line, c.status, c.proto) == b
      && PySlice(line, c.proto, c.desc) == d && line[c.desc..] == desc
  {
    var line := a + b + d + desc;
    assert line == [] + a + (b + d + desc);
    PySliceWhole([], a, b + d + desc);
    assert line == a + b + (d + desc);
    PySliceWhole(a, b, d + desc);
    assert line == (a + b) + d + desc;
    PySliceWhole(a + b, d, desc);
  }

  /** A row printed in the header's columns (each earlier field padded with blanks to the next
      column, the description last) parses back into its fields. */
  lemma HeaderRowOfAligned(c: Columns, iface: string, admin: string, oper: string, desc: string,
      p1: string, p2: string, p3: string)
    requires c.iface == 0 && c.status == |iface + p1| && c.proto == c.status + |admin + p2|
    requires c.desc == c.proto + |oper + p3| && desc != []
    requires IsWord(iface) && Trimmed(iface) && Trimmed(admin) && Trimmed(oper) && Trimmed(desc)
    requires AllSpace(p1) && AllSpace(p2) && AllSpace(p3)
    requires !NotARow((iface + p1) + (admin + p2) + (oper + p3) + desc)
    ensures RowOf(c, (iface + p1) + (admin + p2) + (oper + p3) + desc)
      == Some((iface, Status(admin, oper, desc)))
  {
    AlignedSlices(c, iface + p1, admin + p2, oper + p3, desc);
    StripPaddedCell(iface, p1);
    StripPaddedCell(admin, p2);
    StripPaddedCell(oper, p3);
    StripOfStripped(desc);
  }

  /** Once a header is found, an interface is in the map exactly when some later line gives
      a row for it in the header's layout, and it holds the row of the last such line. */
  lemma HeaderModeLastWins(lines: seq<string>, h: int, iface: string)
    requires h == HeaderIndex(lines) && h >= 0
    ensures LastWins(CiscoTable(lines), lines[h + 1..], HeaderRow(ColumnsOf(lines[h])), iface)
  {
    FoldMapWins(lines[h + 1..], HeaderRow(ColumnsOf(lines[h])), iface);
  }

  /** Without a header the Cisco branch keeps, per interface, the last three-token line. */
  lemma NoHeaderLastWins(lines: seq<string>, iface: string)
    requires HeaderIndex(lines) == -1
    ensures LastWins(CiscoTable(lines), lines, CiscoRow, iface)
  {
    FoldMapWins(lines, CiscoRow, iface);
  }

  /** The header search: `for i, l in enumerate(lines): if ...: header_idx = i; break`. */
  method FindHeader(lines: seq<string>) returns (h: int)
    ensures h == HeaderIndex(lines)
  {
    h := -1;
    var i := 0;
    while i < |lines|
      invariant 0 <= i <= |lines|
      invariant forall j :: 0 <= j < i ==> !IsHeader(lines[j])
    {
      if lines[i] != [] && Contains(Lower(lines[i]), "interface") && Contains(Lower(lines[i]), "status")
        && Contains(Lower(lines[i]), "protocol")
      {
        h := i;
        FirstIndexAt(lines, IsHeader, i);
        return;
      }
      i := i + 1;
    }
  }

  /** The interface parsing of one host. */
  method ParseInterfaceTable(vendor: Vendor, output: string) returns (interfaces: map<string, Status>)
    ensures interfaces == InterfaceTable(vendor, SplitLines(output))
  {
    var lines := SplitLines(output);
    if vendor == Cisco {
      var h := FindHeader(lines);
      if h >= 0 {
        interfaces := FillMap(lines[h + 1..], HeaderRow(ColumnsOf(lines[h])));
      } else {
        interfaces := FillMap(lines, CiscoRow);
      }
    } else {
      interfaces := FillMap(lines, JuniperRow);
    }
  }

  // ---------------------------------------------------------------- MAC table

  /** The regex class `[0-9a-fA-F:.\-]`. */
  predicate IsMacChar(c: char) {
    IsHexDigit(c) || c == ':' || c == '.' || c == '-'
  }

  /** `^(\S+)\s+([0-9a-fA-F:.\-]+)\s+\S+\s+(\S+)` on a stripped line: it matches exactly when
      the line has four tokens or more and the second is made of address characters; the
      groups are the first, second and fourth tokens (vlan, MAC, port). */
  function MacFields(l: string): (r: Option<(string, string, string)>)
    ensures r.Some? <==> |Tokens(l)| >= 4 && forall j :: 0 <= j < |Tokens(l)[1]| ==> IsMacChar(Tokens(l)[1][j])
    ensures r.Some? ==> r.value == (Tokens(l)[0], Tokens(l)[1], Tokens(l)[3])
  {
    var ts := Tokens(l);
    if |ts| >= 4 && forall j :: 0 <= j < |ts[1]| ==> IsMacChar(ts[1][j]) then Some((ts[0], ts[1], ts[2 + 1]))
    else None
  }

  /** A row of the interface-and-MAC file. */
  datatype MacRow = MacRow(host: string, iface: string, admin: string, oper: string,
    description: string, mac: string, vlan: string)

  /** What the interface map says about a port: its columns, or three empty strings. */
  function StatusOf(interfaces: map<string, Status>, port: string): (s: Status)
    ensures port !in interfaces ==> s == Status("", "", "")
    ensures port in interfaces ==> s == interfaces[port]
  {
    if port in interfaces then interfaces[port] else Status("", "", "")
  }

  /** The row a MAC-table line gives: none for an empty line, a `vlan` header or a pager, a
      line the pattern does not match, and the CPU port. */
  function MacLine(host: string, interfaces: map<string, Status>): string -> Option<MacRow> {
    (line: string) =>
      var l := Strip(line);
      if l == [] || StartsWith(Lower(l), "vlan") || Contains(Lower(l), "--more--") then None
      else match MacFields(l)
        case None => None
        case Some(f) =>
          if Upper(f.2) == "CPU" then None
          else
            var s := StatusOf(interfaces, f.2);
            Some(MacRow(host, f.2, s.admin, s.oper, s.description, f.1, f.0))
  }

  /** The MAC rows of one host, in line order. */
  function MacRows(host: string, interfaces: map<string, Status>, lines: seq<string>): seq<MacRow> {
    FilterMap(lines, MacLine(host, interfaces))
  }

  /** Every MAC row is tagged with the host, is not the CPU port, and carries the status of
      its port from the interface map, or empty strings when the map does not know the port;
      and there is one row per line that yields one. */
  lemma MacRowsJoin(host: string, interfaces: map<string, Status>, lines: seq<string>, r: MacRow)
    ensures r in MacRows(host, interfaces, lines) <==>
      exists i :: 0 <= i < |lines| && MacLine(host, interfaces)(lines[i]) == Some(r)
    ensures r in MacRows(host, interfaces, lines) ==>
      && r.host == host && Upper(r.iface) != "CPU"
      && Status(r.admin, r.oper, r.description) == StatusOf(interfaces, r.iface)
  {
    FilterMapMember(lines, MacLine(host, interfaces), r);
    if r in MacRows(host, interfaces, lines) {
      var i :| 0 <= i < |lines| && MacLine(host, interfaces)(lines[i]) == Some(r);
    }
  }

  /** Lines contribute independently and in order. */
  lemma MacRowsAppend(host: string, interfaces: map<string, Status>, a: seq<string>, b: seq<string>)
    ensures MacRows(host, interfaces, a + b) == MacRows(host, interfaces, a) + MacRows(host, interfaces, b)
  {
    FilterMapAppend(a, b, MacLine(host, interfaces));
  }

  /** The MAC loop of one host. */
  method JoinMacRows(host: string, interfaces: map<string, Status>, output: string) returns (rows: seq<MacRow>)
    ensures rows == MacRows(host, interfaces, SplitLines(output))
  {
    rows := Collect(SplitLines(output), MacLine(host, interfaces));
  }
}
