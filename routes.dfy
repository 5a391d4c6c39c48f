/** The route scripts: route prefixes scraped from `show route all`, the one-column route file,
    and the exact comparison of that route set with the tab-separated AD site table. */
module Routes {
  import opened Wrappers
  import opened Text
  import opened Folds
  import opened Tables

  // ---------------------------------------------------------------- route extraction

  /** A stripped output line that starts with a digit and contains `/` somewhere gives its first
      token. */
  function RouteOf(line: string): (r: Option<string>)
    ensures r.Some? <==> Strip(line) != [] && IsPyDigit(Strip(line)[0]) && '/' in Strip(line)
    ensures r.Some? ==> IsWord(r.value) && IsPyDigit(r.value[0]) && r.value == TakeWord(Strip(line))
  {
    var l := Strip(line);
    if l != [] && IsPyDigit(l[0]) && '/' in l then
      TokensNonEmpty(l);
      Some(Tokens(l)[0])
    else None
  }

  /** A line that is only a prefix gives the prefix. */
  lemma RouteOfPrefix(prefix: string)
    requires IsWord(prefix) && IsPyDigit(prefix[0]) && '/' in prefix
    ensures RouteOf(prefix) == Some(prefix)
  {
    StripOfStripped(prefix);
    TakeWordOf(prefix, []);
    assert prefix + [] == prefix;
  }

  /** A prefix followed by further columns gives the prefix. */
  lemma RouteOfPrefixLine(prefix: string, rest: string)
    requires IsWord(prefix) && IsPyDigit(prefix[0]) && '/' in prefix
    requires rest != [] && !IsSpace(rest[|rest| - 1])
    ensures RouteOf(prefix + " " + rest) == Some(prefix)
  {
    var line := prefix + " " + rest;
    assert line[0] == prefix[0] && line[|line| - 1] == rest[|rest| - 1];
    StripOfStripped(line);
    TakeWordOf(prefix, " " + rest);
    assert prefix + (" " + rest) == line;
    assert '/' in line by {
      var j :| 0 <= j < |prefix| && prefix[j] == '/';
      assert line[j] == '/';
    }
  }

  /** The `/` need not be inside the first token: any later `/` on the line lets a line through
      whose first token is not a prefix at all. */
  lemma SlashOutsideFirstToken()
    ensures RouteOf("1 a/b") == Some("1")
  {
    RouteOfPrefixLineLoose("1", "a/b");
  }

  lemma RouteOfPrefixLineLoose(first: string, rest: string)
    requires IsWord(first) && IsPyDigit(first[0]) && rest != [] && !IsSpace(rest[|rest| - 1]) && '/' in rest
    ensures RouteOf(first + " " + rest) == Some(first)
  {
    var line := first + " " + rest;
    assert line[0] == first[0] && line[|line| - 1] == rest[|rest| - 1];
    StripOfStripped(line);
    assert '/' in line by {
      var j :| 0 <= j < |rest| && rest[j] == '/';
      assert line[|first| + 1 + j] == '/';
    }
    TakeWordOf(first, " " + rest);
    assert first + (" " + rest) == line;
  }

  /** The routes of one command output, in output order. */
  function ExtractRoutes(output: string): seq<string> {
    FilterMap(SplitLines(output), RouteOf)
  }

  /** Every extracted route is a digit-led token, and a token is extracted exactly when some
      output line yields it. */
  lemma ExtractRoutesMember(output: string, x: string)
    ensures x in ExtractRoutes(output) <==> exists i :: 0 <= i < |SplitLines(output)| && RouteOf(SplitLines(output)[i]) == Some(x)
    ensures x in ExtractRoutes(output) ==> IsWord(x) && IsPyDigit(x[0])
  {
    FilterMapMember(SplitLines(output), RouteOf, x);
  }

  /** `get_routes`: missing credentials raise before the session starts; any failure of the
      session itself (given as `Err`) gives the empty list; otherwise the output lines are scanned
      one by one. */
  method GetRoutes(creds: Result<(string, string)>, session: Result<string>) returns (r: Result<seq<string>>)
    ensures creds.Err? ==> r == Err(creds.msg)
    ensures creds.Ok? && session.Err? ==> r == Ok([])
    ensures creds.Ok? && session.Ok? ==> r == Ok(ExtractRoutes(session.value))
  {
    if creds.Err? {
      return Err(creds.msg);
    }
    if session.Err? {
      return Ok([]);
    }
    var routes := Collect(SplitLines(session.value), RouteOf);
    r := Ok(routes);
  }

  // ---------------------------------------------------------------- the route file

  /** One data row per route. */
  function RouteRows(routes: seq<string>): (r: seq<Row>)
    ensures |r| == |routes| && forall i :: 0 <= i < |r| ==> r[i] == [routes[i]]
  {
    seq(|routes|, i requires 0 <= i < |routes| => [routes[i]])
  }

  /** `write_to_csv`: a `Route` header, then one row per route in order. */
  function RouteFile(routes: seq<string>): seq<Row> {
    [["Route"]] + RouteRows(routes)
  }

  /** `row['Route'].strip()`: a header without `Route` raises `KeyError`; a row too short to
      reach that column has `None` there, and `None.strip()` raises. */
  function RouteCell(rec: Record): (r: Result<string>)
    ensures r.Ok? <==> "Route" in rec.cells && rec.cells["Route"].Some?
    ensures r.Ok? ==> r.value == Strip(rec.cells["Route"].value)
  {
    if "Route" !in rec.cells then Err("KeyError: 'Route'")
    else match rec.cells["Route"]
      case None => Err("AttributeError: 'NoneType' object has no attribute 'strip'")
      case Some(v) => Ok(Strip(v))
  }

  /** `[row['Route'].strip() for row in reader if row['Route'].strip()]`: the first failing row
      raises. */
  function RouteList(recs: seq<Record>): (r: Result<seq<string>>)
    ensures r.Ok? <==> forall i :: 0 <= i < |recs| ==> RouteCell(recs[i]).Ok?
    ensures r.Ok? ==> forall i :: 0 <= i < |r.value| ==> r.value[i] != [] && Strip(r.value[i]) == r.value[i]
    ensures r.Ok? ==> |r.value| <= |recs|
    decreases |recs|
  {
    if recs == [] then Ok([])
    else
      var rest := RouteList(recs[1..]);
      assert forall i :: 1 <= i < |recs| ==> recs[i] == recs[1..][i - 1];
      match RouteCell(recs[0])
      case Err(m) => Err(m)
      case Ok(v) =>
        if rest.Err? then rest
        else
          StripOfStripped(v);
          Ok((if v != [] then [v] else []) + rest.value)
  }

  /** A route is listed exactly when some row's stripped `Route` cell is that non-blank text. */
  lemma {:induction false} RouteListMember(recs: seq<Record>, x: string)
    requires RouteList(recs).Ok?
    ensures x in RouteList(recs).value <==> x != [] && exists i :: 0 <= i < |recs| && RouteCell(recs[i]) == Ok(x)
    decreases |recs|
  {
    if recs != [] {
      RouteListMember(recs[1..], x);
      assert forall i :: 1 <= i < |recs| ==> recs[i] == recs[1..][i - 1];
      if exists i :: 0 <= i < |recs| && RouteCell(recs[i]) == Ok(x) {
        var i :| 0 <= i < |recs| && RouteCell(recs[i]) == Ok(x);
        if i > 0 {
          assert RouteCell(recs[1..][i - 1]) == Ok(x);
        }
      }
    }
  }

  /** The route set of a route file. */
  function RouteSet(recs: seq<Record>): (r: Result<set<string>>)
    ensures r.Ok? <==> RouteList(recs).Ok?
    ensures r.Ok? ==> "" !in r.value
  {
    match RouteList(recs)
    case Err(m) => Err(m)
    case Ok(l) => Ok(set i | 0 <= i < |l| :: l[i])
  }

  lemma {:induction false} ReadRouteRows(routes: seq<string>)
    requires forall i :: 0 <= i < |routes| ==> IsWord(routes[i])
    ensures RouteList(Records(["Route"], RouteRows(routes))) == Ok(routes)
    decreases |routes|
  {
    if routes != [] {
      var rows := RouteRows(routes);
      assert rows[1..] == RouteRows(routes[1..]);
      assert rows[0] == [routes[0]] != [];
      ReadRouteRows(routes[1..]);
      var rec := RecordOf(["Route"], [routes[0]]);
      RecordOfCell(["Route"], [routes[0]], "Route");
      assert rec.cells["Route"] == Some(routes[0]);
      StripOfStripped(routes[0]);
      assert [routes[0]] + routes[1..] == routes;
    }
  }

  /** Reading back the route file written from a list of tokens gives that list again; the
      route comparison therefore works on the routes the session found. */
  lemma RouteFileRoundTrip(routes: seq<string>)
    requires forall i :: 0 <= i < |routes| ==> IsWord(routes[i])
    ensures RouteList(DictRows(RouteFile(routes))) == Ok(routes)
  {
    assert RouteFile(routes)[1..] == RouteRows(routes);
    ReadRouteRows(routes);
  }

  /** In particular for the routes a session extracts. */
  lemma ExtractedRoutesRoundTrip(output: string)
    ensures RouteSet(DictRows(RouteFile(ExtractRoutes(output)))) ==
      Ok(set i | 0 <= i < |ExtractRoutes(output)| :: ExtractRoutes(output)[i])
  {
    var routes := ExtractRoutes(output);
    forall i | 0 <= i < |routes| ensures IsWord(routes[i]) {
      ExtractRoutesMember(output, routes[i]);
    }
    RouteFileRoundTrip(routes);
  }

  // ---------------------------------------------------------------- comparison with the AD table

  /** What one cell of a site row contributes: `(site, subnet)` when the stripped cell is
      non-blank and a known route. */
  function MatchCell(routes: set<string>): (string, string) -> Option<(string, string)> {
    (site: string, s: string) => if Strip(s) != [] && Strip(s) in routes then Some((site, Strip(s))) else None
  }

  /** Cell `j` of row `i` is a known route, paired with the row's site. */
  predicate MatchAt(rows: seq<Row>, routes: set<string>, i: int, j: int, p: (string, string)) {
    0 <= i < |rows| && 1 <= j < |rows[i]| && Strip(rows[i][j]) != [] && Strip(rows[i][j]) in routes
    && p == (Strip(rows[i][0]), Strip(rows[i][j]))
  }

  /** A pair is matched exactly when some data row has it: its site cell and a later non-blank
      cell that is a known route. Duplicates are kept: the matches are the rows' matches
      concatenated, row by row and column by column. */
  lemma SiteMatchesMember(rows: seq<Row>, routes: set<string>, p: (string, string))
    requires SiteCells(rows, MatchCell(routes)).Ok?
    ensures p in SiteCells(rows, MatchCell(routes)).value <==> exists i, j :: MatchAt(rows, routes, i, j, p)
    ensures SiteCells(rows, MatchCell(routes)).value == FlatMap(rows, RowCellsOf(MatchCell(routes)))
  {
    var cell := MatchCell(routes);
    SiteCellsMember(rows, cell, p);
    SiteCellsValue(rows, cell);
    if exists i, j :: MatchAt(rows, routes, i, j, p) {
      var i, j :| MatchAt(rows, routes, i, j, p);
      assert EntryAt(rows, cell, i, j, p);
    }
    if exists i, j :: EntryAt(rows, cell, i, j, p) {
      var i, j :| EntryAt(rows, cell, i, j, p);
      assert MatchAt(rows, routes, i, j, p);
    }
  }

  /** The comparison of an AD table given as rows: an empty table raises at `next(reader)`;
      when the script also reads `header[0]`, a blank first line raises there. */
  function AdMatches(rows: seq<Row>, routes: set<string>, readsSiteColumn: bool): (r: Result<seq<(string, string)>>)
    ensures r.Ok? <==> rows != [] && !(readsSiteColumn && rows[0] == []) && forall i :: 1 <= i < |rows| ==> rows[i] != []
    ensures r.Ok? ==> r == SiteCells(rows[1..], MatchCell(routes))
  {
    if rows == [] then Err("StopIteration")
    else if readsSiteColumn && rows[0] == [] then Err("IndexError: list index out of range")
    else
      assert forall i :: 1 <= i < |rows| ==> rows[i] == rows[1..][i - 1];
      SiteCells(rows[1..], MatchCell(routes))
  }

  /** The nested loop: for each data row, for each non-blank stripped cell after the site, a
      known route is appended with the row's site. */
  method MatchRoutes(rows: seq<Row>, routes: set<string>, readsSiteColumn: bool) returns (r: Result<seq<(string, string)>>)
    ensures r == AdMatches(rows, routes, readsSiteColumn)
  {
    if rows == [] {
      return Err("StopIteration");
    }
    if readsSiteColumn && rows[0] == [] {
      return Err("IndexError: list index out of range");
    }
    r := ScanSiteRows(rows[1..], MatchCell(routes));
  }

  /** The comparison file: a header, then one row per match in order. */
  function ComparisonFile(matches: seq<(string, string)>): (r: seq<Row>)
    ensures |r| == |matches| + 1 && r[0] == ["SiteName", "MatchedRoute"]
    ensures forall i :: 0 <= i < |matches| ==> r[i + 1] == [matches[i].0, matches[i].1]
  {
    [["SiteName", "MatchedRoute"]] + seq(|matches|, i requires 0 <= i < |matches| => [matches[i].0, matches[i].1])
  }

  /** `compare_routes` and the top level of the plain comparison script: the route set, then the
      AD table against it. */
  method CompareRoutes(routeRecs: seq<Record>, adRows: seq<Row>, readsSiteColumn: bool) returns (r: Result<seq<Row>>)
    ensures RouteSet(routeRecs).Err? ==> r == Err(RouteSet(routeRecs).msg)
    ensures RouteSet(routeRecs).Ok? ==>
      match AdMatches(adRows, RouteSet(routeRecs).value, readsSiteColumn)
      case Err(m) => r == Err(m)
      case Ok(ms) => r == Ok(ComparisonFile(ms))
  {
    var rs := RouteSet(routeRecs);
    if rs.Err? {
      return Err(rs.msg);
    }
    var ms := MatchRoutes(adRows, rs.value, readsSiteColumn);
    if ms.Err? {
      return Err(ms.msg);
    }
    r := Ok(ComparisonFile(ms.value));
  }
}
