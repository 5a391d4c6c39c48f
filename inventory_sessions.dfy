/** The inventory sessions: what the interface-and-MAC script, the interface-description
    script and the JunOS interface-status script do on one host, and the rows their batches
    collect over the host list. */
module InventorySessions {
  import opened Wrappers
  import opened Text
  import opened Shell
  import opened Rules
  import opened Folds
  import opened Interfaces

  // ---------------------------------------------------------------- the shared preamble

  /** The guarded banner read: a failed read leaves the banner empty. */
  function BannerOf(r: Reading): (banner: string)
    ensures r.Chunk? ==> banner == r.text
    ensures r == Fail ==> banner == ""
  {
    if r.Chunk? then r.text else ""
  }

  /** The vendor the first reading of a session names. */
  function VendorOf(script: seq<Reading>): Vendor {
    DetectVendor(BannerOf(Head(script)))
  }

  /** What the preamble sends: paging off on Cisco, `cli` on Juniper, nothing otherwise. */
  function PagingSends(v: Vendor): (sends: seq<string>)
    ensures v == Unknown <==> sends == []
    ensures v == Cisco ==> sends == ["terminal length 0\n", "terminal width 511\n"]
    ensures v == Juniper ==> sends == ["cli\n"]
  {
    match v
    case Cisco => ["terminal length 0\n", "terminal width 511\n"]
    case Juniper => ["cli\n"]
    case Unknown => []
  }

  /** The script after the banner read and, for a known vendor, the one guarded read that
      drains the answer to the preamble. */
  function AfterPreamble(script: seq<Reading>): (rest: seq<Reading>)
    ensures VendorOf(script) == Unknown ==> rest == Tail(script)
    ensures VendorOf(script) != Unknown ==> rest == Tail(Tail(script))
  {
    if VendorOf(script) == Unknown then Tail(script) else Tail(Tail(script))
  }

  /** The banner read, vendor detection and the vendor's preamble. */
  method Preamble(ch: Channel) returns (vendor: Vendor)
    modifies ch
    ensures vendor == VendorOf(old(ch.pending))
    ensures ch.pending == AfterPreamble(old(ch.pending))
    ensures ch.sent == old(ch.sent) + PagingSends(vendor) && ch.open == old(ch.open)
  {
    var r := ch.Recv();
    var banner := if r.Chunk? then r.text else "";
    vendor := DetectVendor(banner);
    if vendor == Cisco {
      ch.Send("terminal length 0\n");
      ch.Send("terminal width 511\n");
      var _ := ch.Recv();
    } else if vendor == Juniper {
      ch.Send("cli\n");
      var _ := ch.Recv();
    }
  }

  const ShowDescriptions := "show interfaces description\n"
  const ShowMacTable := "show mac address-table\n"

  /** The interface listing: up to 20 reads after the command, stopping at a prompt at the
      end of a chunk and answering the pager. */
  function InterfaceWait(script: seq<Reading>): (p: PollResult)
    ensures p.consumed <= 20
  {
    Poll(AfterPreamble(script), 20, PromptAtEnd, true)
  }

  /** The interface command and its listing, parsed for the vendor. */
  method ListInterfaces(ch: Channel, vendor: Vendor) returns (interfaces: map<string, Status>)
    modifies ch
    ensures var p := Poll(old(ch.pending), 20, PromptAtEnd, true);
      && interfaces == InterfaceTable(vendor, SplitLines(p.output))
      && ch.pending == p.unread && ch.sent == old(ch.sent) + [ShowDescriptions] + p.replies
    ensures ch.open == old(ch.open)
  {
    ch.Send(ShowDescriptions);
    var output, _ := PollShell(ch, 20, PromptAtEnd, true);
    interfaces := ParseInterfaceTable(vendor, output);
  }

  /** The interface command and its listing, read line by line into entries. */
  method ListEntries(ch: Channel, host: string, strict: bool) returns (rows: seq<Entry>)
    modifies ch
    ensures var p := Poll(old(ch.pending), 20, PromptAtEnd, true);
      && rows == Entries(host, SplitLines(p.output), strict)
      && ch.pending == p.unread && ch.sent == old(ch.sent) + [ShowDescriptions] + p.replies
    ensures ch.open == old(ch.open)
  {
    ch.Send(ShowDescriptions);
    var output, _ := PollShell(ch, 20, PromptAtEnd, true);
    rows := ParseEntries(host, output, strict);
  }

  // ---------------------------------------------------------------- interfaces and MACs

  /** The MAC command and its listing, joined with the interface map. */
  method ListMacs(ch: Channel, name: string, interfaces: map<string, Status>) returns (rows: seq<MacRow>)
    modifies ch
    ensures var p := Poll(old(ch.pending), 20, PromptAtEnd, true);
      && rows == MacRows(name, interfaces, SplitLines(p.output))
      && ch.pending == p.unread && ch.sent == old(ch.sent) + [ShowMacTable] + p.replies
    ensures ch.open == old(ch.open)
  {
    ch.Send(ShowMacTable);
    var output, _ := PollShell(ch, 20, PromptAtEnd, true);
    rows := JoinMacRows(name, interfaces, output);
  }

  /** The MAC listing: the same loop on whatever the interface listing left unread. */
  function MacWait(script: seq<Reading>): (p: PollResult)
    ensures p.consumed <= 20
  {
    Poll(InterfaceWait(script).unread, 20, PromptAtEnd, true)
  }

  /** The interface map of one host. */
  function HostInterfaces(script: seq<Reading>): map<string, Status> {
    InterfaceTable(VendorOf(script), SplitLines(InterfaceWait(script).output))
  }

  /** The rows one host adds to `all_data`: none when the connection fails. */
  function InventoryRows(name: string, d: Device): seq<MacRow> {
    if !d.connects then []
    else MacRows(name, HostInterfaces(d.script), SplitLines(MacWait(d.script).output))
  }

  /** Everything the session writes to the shell, in order. */
  function InventorySends(script: seq<Reading>): seq<string> {
    PagingSends(VendorOf(script)) + [ShowDescriptions] + InterfaceWait(script).replies
      + [ShowMacTable] + MacWait(script).replies
  }

  /** One host of the interface-and-MAC script; the client is closed on every path. */
  method InventoryHost(ch: Channel, name: string, connects: bool) returns (rows: seq<MacRow>)
    modifies ch
    ensures rows == InventoryRows(name, Device(connects, old(ch.pending)))
    ensures connects ==> ch.sent == old(ch.sent) + InventorySends(old(ch.pending))
    ensures !connects ==> ch.sent == old(ch.sent) && ch.pending == old(ch.pending)
    ensures !ch.open
  {
    if !connects {
      ch.Close();
      return [];
    }
    ghost var script, log0 := ch.pending, ch.sent;
    var vendor := Preamble(ch);
    var interfaces := ListInterfaces(ch, vendor);
    assert interfaces == HostInterfaces(script);
    ghost var log1 := ch.sent;
    assert log1 == log0 + PagingSends(vendor) + [ShowDescriptions] + InterfaceWait(script).replies;
    rows := ListMacs(ch, name, interfaces);
    assert ch.sent == log1 + [ShowMacTable] + MacWait(script).replies;
    Regroup(log0, PagingSends(vendor), [ShowDescriptions], InterfaceWait(script).replies,
      [ShowMacTable], MacWait(script).replies);
    ch.Close();
  }

  /** Every row of a host carries the host's name, is not the CPU port, and has the status
      its port has in that host's interface map (empty when the map does not know it). */
  lemma InventoryRowsTagged(name: string, d: Device, r: MacRow)
    requires r in InventoryRows(name, d)
    ensures d.connects && r.host == name && Upper(r.iface) != "CPU"
    ensures Status(r.admin, r.oper, r.description) == StatusOf(HostInterfaces(d.script), r.iface)
  {
    MacRowsJoin(name, HostInterfaces(d.script), SplitLines(MacWait(d.script).output), r);
  }

  /** The two listings read consecutive stretches of the session: the MAC loop starts where
      the interface loop stopped, and each output is the text of its own stretch. */
  lemma ListingsConsecutive(script: seq<Reading>)
    ensures var s := AfterPreamble(script); var k := InterfaceWait(script).consumed;
      && InterfaceWait(script).output == Concat(s[..k])
      && MacWait(script) == Poll(s[k..], 20, PromptAtEnd, true)
      && MacWait(script).output == Concat(s[k..][..MacWait(script).consumed])
  {
    var s := AfterPreamble(script);
    PollUnread(s, 20, PromptAtEnd, true);
    PollOutputIsConcat(s, 20, PromptAtEnd, true);
    PollOutputIsConcat(InterfaceWait(script).unread, 20, PromptAtEnd, true);
  }

  /** The per-host step of the batch, as a function. */
  function RowsOf(): Target -> seq<MacRow> {
    (t: Target) => InventoryRows(t.name, t.device)
  }

  /** `all_data` after the host loop: each host's rows in host-list order. */
  function AllInventory(targets: seq<Target>): seq<MacRow> {
    FlatMap(targets, RowsOf())
  }

  /** The host loop, each host on its own connection. */
  method CollectInventory(targets: seq<Target>) returns (allData: seq<MacRow>)
    ensures allData == AllInventory(targets)
  {
    allData := [];
    for i := 0 to |targets|
      invariant allData == FlatMap(targets[..i], RowsOf())
    {
      var ch := new Channel(targets[i].device.script);
      var rows := InventoryHost(ch, targets[i].name, targets[i].device.connects);
      FlatMapStep(targets, i, RowsOf());
      allData := allData + rows;
    }
    assert targets[..|targets|] == targets;
  }

  /** A row is collected exactly when some host produced it. */
  lemma AllInventoryMember(targets: seq<Target>, r: MacRow)
    ensures r in AllInventory(targets) <==>
      exists i :: 0 <= i < |targets| && r in InventoryRows(targets[i].name, targets[i].device)
  {
    FlatMapMember(targets, RowsOf(), r);
  }

  /** A host that cannot be reached adds nothing, and the batch carries on with the rest. */
  lemma UnreachableAddsNothing(before: seq<Target>, t: Target, after: seq<Target>)
    requires !t.device.connects
    ensures AllInventory(before + [t] + after) == AllInventory(before) + AllInventory(after)
  {
    FlatMapAppend(before + [t], after, RowsOf());
    FlatMapAppend(before, [t], RowsOf());
    UnreachableRows(t);
  }

  lemma UnreachableRows(t: Target)
    requires !t.device.connects
    ensures FlatMap([t], RowsOf()) == []
  {
    assert InventoryRows(t.name, t.device) == [];
    FlatMapStep([t], 0, RowsOf());
    assert [t][..1] == [t];
  }

  // ---------------------------------------------------------------- interface descriptions

  /** The rows one host of the description script adds: the strict filters. */
  function DescriptionRows(name: string, d: Device): seq<Entry> {
    if !d.connects then [] else Entries(name, SplitLines(InterfaceWait(d.script).output), true)
  }

  /** One host of the description script. */
  method DescriptionHost(ch: Channel, name: string, connects: bool) returns (rows: seq<Entry>)
    modifies ch
    ensures rows == DescriptionRows(name, Device(connects, old(ch.pending)))
    ensures connects ==>
      ch.sent == old(ch.sent) + PagingSends(VendorOf(old(ch.pending)))
        + [ShowDescriptions] + InterfaceWait(old(ch.pending)).replies
    ensures !connects ==> ch.sent == old(ch.sent) && ch.pending == old(ch.pending)
    ensures !ch.open
  {
    if !connects {
      ch.Close();
      return [];
    }
    var _ := Preamble(ch);
    rows := ListEntries(ch, name, true);
    ch.Close();
  }

  /** Every described row carries the host's name and comes from one line of the listing
      that passes the strict filters and has three fields. */
  lemma DescriptionRowsFromLines(name: string, d: Device, e: Entry)
    requires e in DescriptionRows(name, d)
    ensures d.connects && e.host == name
    ensures var lines := SplitLines(InterfaceWait(d.script).output);
      exists i :: 0 <= i < |lines| && !Skipped(Strip(lines[i]), true)
        && IntFields(Strip(lines[i])) == Some((e.iface, Status(e.admin, e.oper, e.description)))
  {
    var lines := SplitLines(InterfaceWait(d.script).output);
    EntriesMember(name, lines, true, e);
    var i :| 0 <= i < |lines| && EntryOf(name, true)(lines[i]) == Some(e);
    EntryOfLine(name, true, lines[i], e);
  }

  function DescriptionsOf(): Target -> seq<Entry> {
    (t: Target) => DescriptionRows(t.name, t.device)
  }

  /** The host loop of the description script. */
  method CollectDescriptions(targets: seq<Target>) returns (allData: seq<Entry>)
    ensures allData == FlatMap(targets, DescriptionsOf())
  {
    allData := [];
    for i := 0 to |targets|
      invariant allData == FlatMap(targets[..i], DescriptionsOf())
    {
      var ch := new Channel(targets[i].device.script);
      var rows := DescriptionHost(ch, targets[i].name, targets[i].device.connects);
      FlatMapStep(targets, i, DescriptionsOf());
      allData := allData + rows;
    }
    assert targets[..|targets|] == targets;
  }

  // ---------------------------------------------------------------- JunOS interface status

  /** The two unguarded reads either side of `cli`: a failure of either aborts the host. */
  predicate StatusAborts(script: seq<Reading>) {
    Head(script) == Fail || Head(Tail(script)) == Fail
  }

  /** The listing of the status script, after the two drains. */
  function StatusWait(script: seq<Reading>): (p: PollResult)
    ensures p.consumed <= 20
  {
    Poll(Tail(Tail(script)), 20, PromptAtEnd, true)
  }

  /** The rows one host of the status script adds: the loose filters, tagged with the
      address the host list names it by. */
  function StatusRows(ip: string, d: Device): seq<Entry> {
    if !d.connects || StatusAborts(d.script) then []
    else Entries(ip, SplitLines(StatusWait(d.script).output), false)
  }

  /** What the status script writes: `cli` once the banner has been read, the command once
      the answer to `cli` has been read, then the pager replies. */
  function StatusSends(script: seq<Reading>): (sends: seq<string>)
    ensures Head(script) == Fail ==> sends == []
  {
    if Head(script) == Fail then []
    else if Head(Tail(script)) == Fail then ["cli\n"]
    else ["cli\n"] + [ShowDescriptions] + StatusWait(script).replies
  }

  /** One host of the status script; an aborted host is closed like any other. */
  method StatusHost(ch: Channel, ip: string, connects: bool) returns (rows: seq<Entry>)
    modifies ch
    ensures rows == StatusRows(ip, Device(connects, old(ch.pending)))
    ensures connects ==> ch.sent == old(ch.sent) + StatusSends(old(ch.pending))
    ensures !connects ==> ch.sent == old(ch.sent) && ch.pending == old(ch.pending)
    ensures !ch.open
  {
    if connects {
      rows := StatusSession(ch, ip);
    } else {
      rows := [];
    }
    ch.Close();
  }

  /** The connected part of a status session. */
  method StatusSession(ch: Channel, ip: string) returns (rows: seq<Entry>)
    modifies ch
    ensures rows == StatusRows(ip, Device(true, old(ch.pending)))
    ensures ch.sent == old(ch.sent) + StatusSends(old(ch.pending))
    ensures ch.open == old(ch.open)
  {
    ghost var script, log0 := ch.pending, ch.sent;
    var banner := ch.Recv();
    if banner == Fail {
      rows := [];
    } else {
      ch.Send("cli\n");
      rows := StatusListing(ch, ip);
      if Head(Tail(script)) != Fail {
        Regroup3(log0, ["cli\n"], [ShowDescriptions], StatusWait(script).replies);
      }
    }
  }

  /** The status session once `cli` is sent: the second unguarded read, then the listing. */
  method StatusListing(ch: Channel, ip: string) returns (rows: seq<Entry>)
    modifies ch
    ensures Head(old(ch.pending)) == Fail ==> rows == [] && ch.sent == old(ch.sent)
    ensures Head(old(ch.pending)) != Fail ==>
      var p := Poll(Tail(old(ch.pending)), 20, PromptAtEnd, true);
      && rows == Entries(ip, SplitLines(p.output), false)
      && ch.sent == old(ch.sent) + [ShowDescriptions] + p.replies
    ensures ch.open == old(ch.open)
  {
    var drained := ch.Recv();
    if drained == Fail {
      rows := [];
    } else {
      rows := ListEntries(ch, ip, false);
    }
  }

  /** An aborted host says nothing after `cli` and contributes no rows. */
  lemma AbortedHostIsQuiet(ip: string, d: Device)
    requires d.connects && StatusAborts(d.script)
    ensures StatusRows(ip, d) == []
    ensures StatusSends(d.script) == [] || StatusSends(d.script) == ["cli\n"]
  {
  }

  function StatusesOf(): Target -> seq<Entry> {
    (t: Target) => StatusRows(t.ip, t.device)
  }

  /** The host loop of the status script. */
  method CollectStatuses(targets: seq<Target>) returns (allData: seq<Entry>)
    ensures allData == FlatMap(targets, StatusesOf())
  {
    allData := [];
    for i := 0 to |targets|
      invariant allData == FlatMap(targets[..i], StatusesOf())
    {
      var ch := new Channel(targets[i].device.script);
      var rows := StatusHost(ch, targets[i].ip, targets[i].device.connects);
      FlatMapStep(targets, i, StatusesOf());
      allData := allData + rows;
    }
    assert targets[..|targets|] == targets;
  }

  /** The status script's rows include every row the description script would keep from
      the same listing: its filters are a subset of the strict ones. */
  lemma StrictRowsAreLooseRows(ip: string, lines: seq<string>, e: Entry)
    requires e in Entries(ip, lines, true)
    ensures e in Entries(ip, lines, false)
  {
    EntriesMember(ip, lines, true, e);
    EntriesMember(ip, lines, false, e);
    var i :| 0 <= i < |lines| && EntryOf(ip, true)(lines[i]) == Some(e);
    EntryOfLine(ip, true, lines[i], e);
    EntryOfLine(ip, false, lines[i], e);
  }
}
