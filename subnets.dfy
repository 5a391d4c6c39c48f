/** The subnet comparison script: the router's routes, parsed as networks, classified against
    the networks of the AD site table. An exact match wins and stops the scan; otherwise the last
    AD network that contains the route wins. */
module SubnetCompare {
  import opened Wrappers
  import opened Text
  import opened Folds
  import opened Tables
  import opened Ipv4
  import opened Routes

  // ---------------------------------------------------------------- inputs

  /** The router networks: each listed route that parses, in order; the others are skipped. */
  function RouterNets(routes: seq<string>): (r: seq<Net>)
    ensures forall i :: 0 <= i < |r| ==> Valid(r[i])
  {
    var r := FilterMap(routes, ParseNet);
    forall i | 0 <= i < |r| ensures Valid(r[i]) {
      FilterMapMember(routes, ParseNet, r[i]);
    }
    r
  }

  /** The `try: ... except ValueError: continue` loop. */
  method ParseRouterNets(routes: seq<string>) returns (nets: seq<Net>)
    ensures nets == RouterNets(routes)
  {
    nets := Collect(routes, ParseNet);
  }

  /** What one AD cell contributes: its network, with the row's site, when the stripped cell is
      non-blank and parses. */
  function AdCell(): (string, string) -> Option<(Net, string)> {
    (site: string, s: string) => AdCellOf(site, s)
  }

  function AdCellOf(site: string, s: string): Option<(Net, string)> {
    if Strip(s) == [] then None
    else match ParseNet(Strip(s))
      case None => None
      case Some(n) => Some((n, site))
  }

  function Nets(es: seq<(Net, string)>): (r: seq<Net>)
    ensures |r| == |es| && forall i :: 0 <= i < |es| ==> r[i] == es[i].0
  {
    seq(|es|, i requires 0 <= i < |es| => es[i].0)
  }

  /** `ad_sites[str(ad_net)] = site`. Every entry holds a valid network (`AdEntriesValid`), so
      the guard never drops one. */
  function SiteEntry(e: (Net, string)): Option<(string, string)> {
    if Valid(e.0) then Some((NetToString(e.0), e.1)) else None
  }

  /** Every AD network is valid and its printed form is a key of the site dictionary. */
  predicate WellFormed(ads: seq<Net>, sites: map<string, string>) {
    forall i :: 0 <= i < |ads| ==> Valid(ads[i]) && NetToString(ads[i]) in sites
  }

  predicate AllValid(es: seq<(Net, string)>) {
    forall i :: 0 <= i < |es| ==> Valid(es[i].0)
  }

  /** The AD networks in table order, and `ad_sites`: for each network's printed form the site of
      the last entry listing it. */
  function AdTable(rows: seq<Row>): (r: Result<(seq<Net>, map<string, string>)>)
    ensures r.Ok? <==> rows != [] && SiteCells(rows[1..], AdCell()).Ok?
    ensures r.Ok? ==> WellFormed(r.value.0, r.value.1)
  {
    if rows == [] then Err("StopIteration") else AdScan(rows[1..])
  }

  /** The same for the data rows after the header. */
  function AdScan(data: seq<Row>): (r: Result<(seq<Net>, map<string, string>)>)
    ensures r.Ok? <==> SiteCells(data, AdCell()).Ok?
    ensures r.Ok? ==> WellFormed(r.value.0, r.value.1)
  {
    match SiteCells(data, AdCell())
    case Err(m) => Err(m)
    case Ok(es) =>
      AdEntriesValid(data);
      AdTableWellFormed(es);
      Ok((Nets(es), FoldMap(es, SiteEntry)))
  }

  /** A network's printed form is a key exactly when the network is among the entries, and it
      holds the site of the last entry for that network. */
  lemma AdTableSites(es: seq<(Net, string)>, n: Net)
    requires AllValid(es) && Valid(n)
    ensures NetToString(n) in FoldMap(es, SiteEntry) <==> n in Nets(es)
    ensures NetToString(n) in FoldMap(es, SiteEntry) ==> exists i :: (0 <= i < |es| && es[i].0 == n
      && FoldMap(es, SiteEntry)[NetToString(n)] == es[i].1 && forall j :: i < j < |es| ==> es[j].0 != n)
  {
    var k := NetToString(n);
    FoldMapLookup(es, SiteEntry, k);
    forall j | 0 <= j < |es| ensures Writes(SiteEntry, es[j], k) <==> es[j].0 == n {
      if Writes(SiteEntry, es[j], k) {
        NetToStringInjective(es[j].0, n);
      }
    }
    if n in Nets(es) {
      var i :| 0 <= i < |es| && Nets(es)[i] == n;
      assert Writes(SiteEntry, es[i], k);
    }
    if k in FoldMap(es, SiteEntry) {
      var i :| 0 <= i < |es| && Writes(SiteEntry, es[i], k) && FoldMap(es, SiteEntry)[k] == SiteEntry(es[i]).value.1
        && forall j :: i < j < |es| ==> !Writes(SiteEntry, es[j], k);
      assert Nets(es)[i] == n;
    }
  }

  lemma AdTableWellFormed(es: seq<(Net, string)>)
    requires AllValid(es)
    ensures WellFormed(Nets(es), FoldMap(es, SiteEntry))
  {
    forall i | 0 <= i < |es| ensures NetToString(es[i].0) in FoldMap(es, SiteEntry) {
      AdTableSites(es, es[i].0);
    }
  }

  /** Only networks that parsed are entered. */
  lemma AdEntriesValid(rows: seq<Row>)
    requires SiteCells(rows, AdCell()).Ok?
    ensures AllValid(SiteCells(rows, AdCell()).value)
  {
    var es := SiteCells(rows, AdCell()).value;
    forall i | 0 <= i < |es| ensures Valid(es[i].0) {
      SiteCellsMember(rows, AdCell(), es[i]);
      var r, j :| EntryAt(rows, AdCell(), r, j, es[i]);
    }
  }

  lemma NetsAppend(a: seq<(Net, string)>, b: seq<(Net, string)>)
    ensures Nets(a + b) == Nets(a) + Nets(b)
  {
    assert forall i :: 0 <= i < |a + b| ==> Nets(a + b)[i] == (Nets(a) + Nets(b))[i];
  }

  lemma EntriesStep(es: seq<(Net, string)>, e: (Net, string))
    ensures Nets(es + [e]) == Nets(es) + [e.0]
    ensures Valid(e.0) ==> FoldMap(es + [e], SiteEntry) == FoldMap(es, SiteEntry)[NetToString(e.0) := e.1]
  {
    assert (es + [e])[..|es|] == es;
  }

  lemma AdCellStep(site: string, cells: seq<string>, j: nat)
    requires j < |cells|
    ensures FilterMap(cells[..j + 1], CellOf(site, AdCell()))
      == FilterMap(cells[..j], CellOf(site, AdCell())) + (match AdCellOf(site, cells[j]) case None => [] case Some(e) => [e])
  {
    FilterMapStep(cells, j, CellOf(site, AdCell()));
    assert CellOf(site, AdCell())(cells[j]) == AdCellOf(site, cells[j]);
  }

  /** The cell loop of one AD row: each parsed network is appended and its site recorded. */
  method AddRowNets(site: string, cells: seq<string>, ghost es0: seq<(Net, string)>, ads0: seq<Net>, sites0: map<string, string>)
    returns (ghost es: seq<(Net, string)>, ads: seq<Net>, sites: map<string, string>)
    requires ads0 == Nets(es0) && sites0 == FoldMap(es0, SiteEntry)
    ensures es == es0 + FilterMap(cells, CellOf(site, AdCell()))
    ensures ads == Nets(es) && sites == FoldMap(es, SiteEntry)
    ensures ads == ads0 + Nets(FilterMap(cells, CellOf(site, AdCell())))
    ensures sites == FoldMap(es0 + FilterMap(cells, CellOf(site, AdCell())), SiteEntry)
  {
    es, ads, sites := es0, ads0, sites0;
    for j := 0 to |cells|
      invariant es == es0 + FilterMap(cells[..j], CellOf(site, AdCell()))
      invariant ads == Nets(es) && sites == FoldMap(es, SiteEntry)
    {
      AdCellStep(site, cells, j);
      var subnet := Strip(cells[j]);
      if subnet != [] {
        match ParseNet(subnet) {
          case None =>
          case Some(adNet) =>
            AppendAssoc(es0, FilterMap(cells[..j], CellOf(site, AdCell())), [(adNet, site)]);
            EntriesStep(es, (adNet, site));
            es := es + [(adNet, site)];
            ads := ads + [adNet];
            sites := sites[NetToString(adNet) := site];
        }
      }
    }
    assert cells[..|cells|] == cells;
    NetsAppend(es0, FilterMap(cells, CellOf(site, AdCell())));
  }

  /** The AD table loop: `next(reader)` for the header, then every data row. */
  method BuildAdTable(rows: seq<Row>) returns (r: Result<(seq<Net>, map<string, string>)>)
    ensures r == AdTable(rows)
  {
    if rows == [] {
      return Err("StopIteration");
    }
    r := ScanAdRows(rows[1..]);
  }

  method ScanAdRows(data: seq<Row>) returns (r: Result<(seq<Net>, map<string, string>)>)
    ensures r == AdScan(data)
  {
    var ads: seq<Net> := [];
    var sites: map<string, string> := map[];
    ghost var es: seq<(Net, string)> := [];
    for i := 0 to |data|
      invariant SiteCells(data[..i], AdCell()) == Ok(es)
      invariant ads == Nets(es) && sites == FoldMap(es, SiteEntry)
    {
      var row := data[i];
      if row == [] {
        assert data[..i + 1][i] == row;
        SiteCellsPrefixErr(data, AdCell(), i + 1);
        return Err("IndexError: list index out of range");
      }
      SiteCellsStep(data, i, AdCell());
      es, ads, sites := AddRowNets(Strip(row[0]), row[1..], es, ads, sites);
    }
    assert data[..|data|] == data;
    r := Ok((ads, sites));
  }

  // ---------------------------------------------------------------- classification

  datatype Verdict = Perfect(site: string) | Subnet(parent: Net, site: string) | NoMatch

  /** `router_net == ad_net`. */
  function IsNet(rn: Net): Net -> bool {
    (x: Net) => x == rn
  }

  /** `router_net.subnet_of(ad_net)`. */
  function Encloses(rn: Net): Net -> bool
    requires rn.len <= 32
  {
    (x: Net) => x.len <= 32 && SubnetOf(rn, x)
  }

  /** The verdict for one router network: the first AD network equal to it, else the last AD
      network containing it, else none. */
  function Classify(rn: Net, ads: seq<Net>, sites: map<string, string>): (v: Verdict)
    requires Valid(rn) && WellFormed(ads, sites)
    ensures v.Subnet? ==> Valid(v.parent) && v.parent in ads
  {
    var e := FirstIndex(ads, IsNet(rn));
    if e >= 0 then Perfect(sites[NetToString(ads[e])])
    else
      var l := LastIndex(ads, Encloses(rn));
      if l >= 0 then Subnet(ads[l], sites[NetToString(ads[l])]) else NoMatch
  }

  /** An AD network equal to the route gives a perfect match with that network's site. */
  lemma ClassifyExact(rn: Net, ads: seq<Net>, sites: map<string, string>)
    requires Valid(rn) && WellFormed(ads, sites)
    ensures rn in ads <==> Classify(rn, ads, sites).Perfect?
    ensures rn in ads ==> Classify(rn, ads, sites) == Perfect(sites[NetToString(rn)])
  {
    var e := FirstIndex(ads, IsNet(rn));
    if rn in ads {
      var i :| 0 <= i < |ads| && ads[i] == rn;
      assert e >= 0;
    }
  }

  /** No verdict exactly when no AD network contains the route. */
  lemma ClassifyNoMatch(rn: Net, ads: seq<Net>, sites: map<string, string>)
    requires Valid(rn) && WellFormed(ads, sites)
    ensures Classify(rn, ads, sites) == NoMatch <==> forall i :: 0 <= i < |ads| ==> !SubnetOf(rn, ads[i])
  {
    var e := FirstIndex(ads, IsNet(rn));
    if e >= 0 {
      assert SubnetOf(rn, ads[e]);
    }
  }

  /** A subnet verdict names the last AD network containing the route, which is a proper
      supernet of it, with its site, and the route itself is not in the AD list. */
  lemma ClassifySubnet(rn: Net, ads: seq<Net>, sites: map<string, string>)
    requires Valid(rn) && WellFormed(ads, sites) && Classify(rn, ads, sites).Subnet?
    ensures rn !in ads
    ensures exists i :: (0 <= i < |ads| && ads[i] == Classify(rn, ads, sites).parent
      && SubnetOf(rn, ads[i]) && forall j :: i < j < |ads| ==> !SubnetOf(rn, ads[j]))
    ensures Classify(rn, ads, sites).site == sites[NetToString(Classify(rn, ads, sites).parent)]
    ensures Classify(rn, ads, sites).parent.len < rn.len
  {
    ClassifyExact(rn, ads, sites);
    var l := LastIndex(ads, Encloses(rn));
    assert ads[l] != rn;
    ProperSubnetIsLonger(rn, ads[l]);
  }

  lemma NoEarlierNet(ads: seq<Net>, rn: Net, n: int)
    requires 0 <= n <= |ads| && rn !in ads[..n]
    ensures forall j :: 0 <= j < n ==> !IsNet(rn)(ads[j])
    ensures n < |ads| && ads[n] == rn ==> IsNet(rn)(ads[n])
  {
    assert forall j :: 0 <= j < n ==> ads[j] == ads[..n][j];
  }

  /** The scan with its `found_exact` / `found_subnet` / `parent_site` flags and `break`. */
  method ClassifyRoute(rn: Net, ads: seq<Net>, sites: map<string, string>) returns (v: Verdict)
    requires Valid(rn) && WellFormed(ads, sites)
    ensures v == Classify(rn, ads, sites)
  {
    ghost var p := Encloses(rn);
    var foundExact := false;
    var foundSubnet: Option<Net> := None;
    var parentSite := "";
    var i := 0;
    while i < |ads|
      invariant 0 <= i <= |ads|
      invariant rn !in ads[..i]
      invariant !foundExact
      invariant foundSubnet == (if LastIndex(ads[..i], p) >= 0 then Some(ads[LastIndex(ads[..i], p)]) else None)
      invariant foundSubnet.Some? ==> parentSite == sites[NetToString(foundSubnet.value)]
    {
      LastIndexStep(ads, i, p);
      assert p(ads[i]) == SubnetOf(rn, ads[i]);
      if ads[i] == rn {
        foundExact := true;
        parentSite := sites[NetToString(ads[i])];
        break;
      } else if SubnetOf(rn, ads[i]) {
        foundSubnet := Some(ads[i]);
        parentSite := sites[NetToString(ads[i])];
      }
      i := i + 1;
    }
    if foundExact {
      ClassifyAtExact(rn, ads, sites, i);
      v := Perfect(parentSite);
    } else {
      assert ads[..|ads|] == ads;
      ClassifyWithoutExact(rn, ads, sites);
      if foundSubnet.Some? {
        v := Subnet(foundSubnet.value, parentSite);
      } else {
        v := NoMatch;
      }
    }
  }

  /** The scan stops at the first AD network equal to the route. */
  lemma ClassifyAtExact(rn: Net, ads: seq<Net>, sites: map<string, string>, i: nat)
    requires Valid(rn) && WellFormed(ads, sites)
    requires i < |ads| && rn !in ads[..i] && ads[i] == rn
    ensures Classify(rn, ads, sites) == Perfect(sites[NetToString(ads[i])])
  {
    NoEarlierNet(ads, rn, i);
    FirstIndexAt(ads, IsNet(rn), i);
  }

  /** Without an equal AD network the last enclosing one decides. */
  lemma ClassifyWithoutExact(rn: Net, ads: seq<Net>, sites: map<string, string>)
    requires Valid(rn) && WellFormed(ads, sites) && rn !in ads
    ensures var l := LastIndex(ads, Encloses(rn));
      Classify(rn, ads, sites) == if l >= 0 then Subnet(ads[l], sites[NetToString(ads[l])]) else NoMatch
  {
    assert ads[..|ads|] == ads;
    NoEarlierNet(ads, rn, |ads|);
  }

  /** The third column of a result. */
  function Note(v: Verdict): string
    requires v.Subnet? ==> Valid(v.parent)
  {
    match v
    case Perfect(_) => "Perfect match"
    case Subnet(p, _) => "Subnet of " + NetToString(p)
    case NoMatch => "No match or subnet"
  }

  /** Only the rows without a verdict carry the note the writer filters out. */
  lemma NoteNoMatch(v: Verdict)
    requires v.Subnet? ==> Valid(v.parent)
    ensures Note(v) == "No match or subnet" <==> v.NoMatch?
  {
    if v.Subnet? {
      assert Note(v)[0] == 'S';
    }
  }

  /** One result: `(site, route, note)`, the site empty when nothing matched. */
  function ResultOf(rn: Net, ads: seq<Net>, sites: map<string, string>): (string, string, string)
    requires Valid(rn) && WellFormed(ads, sites)
  {
    ResultFor(rn, Classify(rn, ads, sites))
  }

  function ResultFor(rn: Net, v: Verdict): (string, string, string)
    requires Valid(rn) && (v.Subnet? ==> Valid(v.parent))
  {
    (if v.NoMatch? then "" else v.site, NetToString(rn), Note(v))
  }

  /** The results list, one entry per router network in order. */
  function Results(nets: seq<Net>, ads: seq<Net>, sites: map<string, string>): (r: seq<(string, string, string)>)
    requires forall i :: 0 <= i < |nets| ==> Valid(nets[i])
    requires WellFormed(ads, sites)
    ensures |r| == |nets|
    decreases |nets|
  {
    if nets == [] then []
    else Results(nets[..|nets| - 1], ads, sites) + [ResultOf(nets[|nets| - 1], ads, sites)]
  }

  /** The entry of each router network is its own result. */
  lemma {:induction false} ResultsAt(nets: seq<Net>, ads: seq<Net>, sites: map<string, string>, i: nat)
    requires forall i :: 0 <= i < |nets| ==> Valid(nets[i])
    requires WellFormed(ads, sites) && i < |nets|
    ensures Results(nets, ads, sites)[i] == ResultOf(nets[i], ads, sites)
    decreases |nets|
  {
    if i < |nets| - 1 {
      ResultsAt(nets[..|nets| - 1], ads, sites, i);
    }
  }

  lemma ResultsStep(nets: seq<Net>, ads: seq<Net>, sites: map<string, string>, i: nat)
    requires forall i :: 0 <= i < |nets| ==> Valid(nets[i])
    requires WellFormed(ads, sites) && i < |nets|
    ensures Results(nets[..i + 1], ads, sites) == Results(nets[..i], ads, sites) + [ResultOf(nets[i], ads, sites)]
  {
    assert nets[..i + 1][..i] == nets[..i];
  }

  /** What the writer puts out for one result: nothing for the no-match note. */
  function Written(t: (string, string, string)): Option<Row> {
    if t.2 != "No match or subnet" then Some([t.0, t.1, t.2]) else None
  }

  /** The comparison file: the header, then the written results. */
  function OutputRows(results: seq<(string, string, string)>): (r: seq<Row>)
    ensures |r| >= 1 && r[0] == ["SiteName", "Router_Route", "Result"]
  {
    [["SiteName", "Router_Route", "Result"]] + FilterMap(results, Written)
  }

  /** A router network appears in the comparison file exactly when some AD network contains it,
      and its row carries its verdict. */
  lemma OutputRowsMember(nets: seq<Net>, ads: seq<Net>, sites: map<string, string>, row: Row)
    requires forall i :: 0 <= i < |nets| ==> Valid(nets[i])
    requires WellFormed(ads, sites)
    ensures row in OutputRows(Results(nets, ads, sites))[1..] <==> exists i :: (0 <= i < |nets|
      && (exists j :: 0 <= j < |ads| && SubnetOf(nets[i], ads[j]))
      && row == [ResultOf(nets[i], ads, sites).0, NetToString(nets[i]), Note(Classify(nets[i], ads, sites))])
  {
    var rs := Results(nets, ads, sites);
    assert OutputRows(rs)[1..] == FilterMap(rs, Written);
    FilterMapMember(rs, Written, row);
    forall i | 0 <= i < |nets|
      ensures Written(rs[i]) == Some(row) <==> ((exists j :: 0 <= j < |ads| && SubnetOf(nets[i], ads[j]))
        && row == [ResultOf(nets[i], ads, sites).0, NetToString(nets[i]), Note(Classify(nets[i], ads, sites))])
    {
      ResultsAt(nets, ads, sites, i);
      WrittenRow(nets[i], ads, sites, row);
    }
  }

  /** The writer keeps a router network's result exactly when some AD network contains it. */
  lemma WrittenRow(rn: Net, ads: seq<Net>, sites: map<string, string>, row: Row)
    requires Valid(rn) && WellFormed(ads, sites)
    ensures Written(ResultOf(rn, ads, sites)) == Some(row) <==> ((exists j :: 0 <= j < |ads| && SubnetOf(rn, ads[j]))
      && row == [ResultOf(rn, ads, sites).0, NetToString(rn), Note(Classify(rn, ads, sites))])
  {
    NoteNoMatch(Classify(rn, ads, sites));
    ClassifyNoMatch(rn, ads, sites);
  }

  /** `compare_routes_subnet`, on the rows of the two files. */
  function CompareSubnets(routeRecs: seq<Record>, adRows: seq<Row>): (r: Result<seq<Row>>)
    ensures RouteList(routeRecs).Err? ==> r == Err(RouteList(routeRecs).msg)
    ensures RouteList(routeRecs).Ok? ==> (r.Ok? <==> AdTable(adRows).Ok?)
  {
    match RouteList(routeRecs)
    case Err(m) => Err(m)
    case Ok(routes) =>
      match AdTable(adRows)
      case Err(m) => Err(m)
      case Ok(t) => Ok(OutputRows(Results(RouterNets(routes), t.0, t.1)))
  }

  /** The loop over the router networks. */
  method AnalyzeRoutes(nets: seq<Net>, ads: seq<Net>, sites: map<string, string>) returns (results: seq<(string, string, string)>)
    requires forall i :: 0 <= i < |nets| ==> Valid(nets[i])
    requires WellFormed(ads, sites)
    ensures results == Results(nets, ads, sites)
  {
    results := [];
    for i := 0 to |nets|
      invariant results == Results(nets[..i], ads, sites)
    {
      var v := ClassifyRoute(nets[i], ads, sites);
      ResultsStep(nets, ads, sites, i);
      results := results + [ResultFor(nets[i], v)];
    }
    assert nets[..|nets|] == nets;
  }

  /** The writer loop. */
  method WriteResults(results: seq<(string, string, string)>) returns (rows: seq<Row>)
    ensures rows == OutputRows(results)
  {
    rows := [["SiteName", "Router_Route", "Result"]];
    for i := 0 to |results|
      invariant rows == OutputRows(results[..i])
    {
      FilterMapStep(results, i, Written);
      if results[i].2 != "No match or subnet" {
        rows := rows + [[results[i].0, results[i].1, results[i].2]];
      }
    }
    assert results[..|results|] == results;
  }

  /** `compare_routes_subnet`: the route file, the AD table, the analysis, the writer. */
  method CompareRoutesSubnet(routeRecs: seq<Record>, adRows: seq<Row>) returns (r: Result<seq<Row>>)
    ensures r == CompareSubnets(routeRecs, adRows)
  {
    var routes := RouteList(routeRecs);
    if routes.Err? {
      return Err(routes.msg);
    }
    var nets := ParseRouterNets(routes.value);
    var table := BuildAdTable(adRows);
    if table.Err? {
      return Err(table.msg);
    }
    var results := AnalyzeRoutes(nets, table.value.0, table.value.1);
    var rows := WriteResults(results);
    r := Ok(rows);
  }

  /** The main script writes the extracted routes to the route file and reads them back: the
      comparison sees exactly the routes it wrote. */
  lemma CompareWrittenRoutes(routes: seq<string>, adRows: seq<Row>)
    requires forall i :: 0 <= i < |routes| ==> IsWord(routes[i])
    ensures CompareSubnets(DictRows(RouteFile(routes)), adRows) ==
      match AdTable(adRows)
      case Err(m) => Err(m)
      case Ok(t) => Ok(OutputRows(Results(RouterNets(routes), t.0, t.1)))
  {
    RouteFileRoundTrip(routes);
  }
}
