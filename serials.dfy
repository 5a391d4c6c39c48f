/** The Avocent serial-number collector: what one device session reports, from the command
    outputs it is given, and how the per-device result is formed. */
module AvocentSerials {
  import opened Wrappers
  import opened Text
  import opened Folds

  // ---------------------------------------------------------------- the Avocent pattern

  const SerialTag: string := "serial number: "

  /** `serial number: (\S+)`, matched at the start of `t`: the tag, then a non-empty run of
      non-space characters, which the group captures whole. */
  function SerialAt(t: string): (r: Option<string>)
    ensures r.Some? ==> IsWord(r.value)
  {
    if StartsWith(t, SerialTag) && TakeWord(t[|SerialTag|..]) != [] then Some(TakeWord(t[|SerialTag|..]))
    else None
  }

  /** The tag followed by a word captures exactly that word. */
  lemma SerialAtWord(w: string, post: string)
    requires IsWord(w) && (post == [] || IsSpace(post[0]))
    ensures SerialAt(SerialTag + w + post) == Some(w)
  {
    var t := SerialTag + w + post;
    assert t[..|SerialTag|] == SerialTag;
    assert t[|SerialTag|..] == w + post;
    TakeWordOf(w, post);
  }

  /** The captured serial is a whole word of the text, and there is none without the tag. */
  lemma SerialOfText(text: string)
    ensures Search(text, SerialAt).Some? ==> IsWord(Search(text, SerialAt).value) && Contains(text, SerialTag)
  {
    if Search(text, SerialAt).Some? {
      var k := SearchIndex(text, SerialAt);
      assert SerialAt(text[k..]).Some?;
      ContainsFrom(text, SerialTag, k);
    }
  }

  // ---------------------------------------------------------------- the JunOS chassis line

  /** `^Chassis\s+(\S+)\s+(\S+)$` on a stripped line: after the literal, whitespace first,
      no whitespace last, and exactly two tokens; the group is the first of them. */
  function ChassisRegex(line: string): Option<string> {
    if StartsWith(line, "Chassis") then
      var rest := line[7..];
      if rest != [] && IsSpace(rest[0]) && !IsSpace(rest[|rest| - 1]) && |Tokens(rest)| == 2 then Some(Tokens(rest)[0])
      else None
    else None
  }

  /** A stripped line that starts with `Chassis` and has a serial column. */
  predicate IsChassisLine(line: string) {
    StartsWith(Strip(line), "Chassis") && |Tokens(Strip(line))| >= 3
  }

  /** The serial column of a chassis line: its second-to-last token. */
  function SerialColumn(line: string): (serial: string)
    requires IsChassisLine(line)
    ensures IsWord(serial)
  {
    var parts := Tokens(Strip(line));
    parts[|parts| - 2]
  }

  /** The serial of the first chassis line; `''` when there is none. */
  function ChassisOf(lines: seq<string>): (serial: string)
    ensures serial != [] <==> exists i :: 0 <= i < |lines| && IsChassisLine(lines[i])
  {
    var i := FirstIndex(lines, IsChassisLine);
    if i < 0 then [] else SerialColumn(lines[i])
  }

  /** Whenever the regular expression matches, the whitespace split gives the same serial. */
  lemma ChassisRegexAgrees(line: string)
    requires line == Strip(line) && ChassisRegex(line).Some?
    ensures IsChassisLine(line)
    ensures ChassisRegex(line).value == SerialColumn(line)
  {
    var rest := line[7..];
    assert line == "Chassis" + rest;
    TokensCons("Chassis", rest);
  }

  lemma PrintedTokens(serial: string, model: string)
    requires IsWord(serial) && IsWord(model)
    ensures Strip("Chassis " + serial + " " + model) == "Chassis " + serial + " " + model
    ensures Tokens("Chassis " + serial + " " + model) == ["Chassis", serial, model]
  {
    var line := "Chassis " + serial + " " + model;
    assert line == "Chassis" + " " + (serial + " " + model);
    assert line[0] == 'C' && line[|line| - 1] == model[|model| - 1];
    StripOfStripped(line);
    TokensOfJoin("Chassis", serial + " " + model);
    TokensOfJoin(serial, model);
    TokensOfWord(model);
  }

  /** Example: a chassis line as the device prints it, `Chassis <serial> <model>`, gives its serial. */
  lemma ChassisOfPrinted(serial: string, model: string)
    requires IsWord(serial) && IsWord(model)
    ensures ChassisOf(["Chassis " + serial + " " + model]) == serial
  {
    var line := "Chassis " + serial + " " + model;
    PrintedTokens(serial, model);
    assert line[..7] == "Chassis";
    assert IsChassisLine(line);
    FirstIndexAt([line], IsChassisLine, 0);
  }

  /** One line of the scan: the regular expression first, then the whitespace split. */
  method MatchChassis(raw: string) returns (found: bool, serial: string)
    ensures found == IsChassisLine(raw)
    ensures found ==> serial == SerialColumn(raw)
  {
    found, serial := false, "";
    var line := Strip(raw);
    if StartsWith(line, "Chassis") {
      var m := ChassisRegex(line);
      if m.Some? {
        StripOfStripped(line);
        ChassisRegexAgrees(line);
        return true, m.value;
      }
      var parts := Tokens(line);
      if |parts| >= 3 {
        return true, parts[|parts| - 2];
      }
    }
  }

  /** The scan over `junos_output.splitlines()`, stopping at the first chassis line. */
  method ScanChassis(lines: seq<string>) returns (serial: string)
    ensures serial == ChassisOf(lines)
  {
    serial := "";
    var i := 0;
    while i < |lines|
      invariant 0 <= i <= |lines| && serial == ""
      invariant forall j :: 0 <= j < i ==> !IsChassisLine(lines[j])
    {
      var found, s := MatchChassis(lines[i]);
      if found {
        FirstIndexAt(lines, IsChassisLine, i);
        serial := s;
        return;
      }
      i := i + 1;
    }
  }

  // ---------------------------------------------------------------- one device

  /** What a session read: the output after `cd system/information`, after `show`, after
      `show system/information`, and the chassis read after `show chassis hardware`. The reads
      themselves end on a prompt or a deadline, which is not part of this model. */
  datatype Probe = Probe(out1: string, out2: string, out3: string, junos: string)

  /** How the connection attempt ended: connected, with a session that completed or raised;
      or refused, with the ping's verdict (None when the ping itself raised). */
  datatype Attempt = Connected(session: Result<Probe>) | Refused(ping: Option<bool>)

  const CdCommand: string := "cd system/information\n"
  const ShowCommand: string := "show\n"
  const InfoCommand: string := "show system/information\n"
  const ChassisCommand: string := "show chassis hardware\n"

  /** The commands in the order a session may send them. */
  function Commands(): seq<string> {
    [CdCommand, ShowCommand, InfoCommand, ChassisCommand]
  }

  /** How many of those commands a completed session sends: the third only when the pattern is
      not in the first two outputs, the fourth only when it is not in the third either. */
  function Steps(p: Probe): (n: nat)
    ensures 2 <= n <= 4
    ensures n > 2 <==> Search(p.out1 + p.out2, SerialAt).None?
    ensures n > 3 <==> Search(p.out1 + p.out2, SerialAt).None? && Search(p.out3, SerialAt).None?
  {
    if Search(p.out1 + p.out2, SerialAt).Some? then 2
    else if Search(p.out3, SerialAt).Some? then 3
    else 4
  }

  /** The serial a completed session reports and the commands it sent: the Avocent pattern on
      the first two outputs, then on the third, then the chassis line. */
  function Session(p: Probe): (r: (string, seq<string>))
    ensures |r.1| == Steps(p) && r.1 == Commands()[..Steps(p)]
    ensures r.0 == "" || IsWord(r.0)
  {
    var first := Search(p.out1 + p.out2, SerialAt);
    var second := Search(p.out3, SerialAt);
    var serial :=
      if first.Some? then first.value
      else if second.Some? then second.value
      else ChassisOf(SplitLines(p.junos));
    (serial, Commands()[..Steps(p)])
  }

  /** When the first occurrence of the tag in the first two outputs is followed by a word, that
      word is reported and nothing more is sent. */
  lemma SessionFirstWins(p: Probe)
    requires Find(p.out1 + p.out2, SerialTag) >= 0
    requires TakeWord((p.out1 + p.out2)[Find(p.out1 + p.out2, SerialTag) + |SerialTag|..]) != []
    ensures Session(p).0 == TakeWord((p.out1 + p.out2)[Find(p.out1 + p.out2, SerialTag) + |SerialTag|..])
    ensures Steps(p) == 2
  {
    var text := p.out1 + p.out2;
    var k := Find(text, SerialTag);
    SerialAtFound(text, k);
    SearchFirst(text, SerialAt, k);
  }

  /** Where `Find` first sees the tag, the serial pattern matches when a word follows, and it
      matches nowhere before. */
  lemma SerialAtFound(text: string, k: int)
    requires k == Find(text, SerialTag) >= 0
    requires TakeWord(text[k + |SerialTag|..]) != []
    ensures SerialAt(text[k..]) == Some(TakeWord(text[k + |SerialTag|..]))
    ensures forall j :: 0 <= j < k ==> SerialAt(text[j..]).None?
  {
    assert text[k..][|SerialTag|..] == text[k + |SerialTag|..];
  }

  /** `get_serial_number`: the serial and the reachability column. */
  function GetSerialNumber(dryRun: bool, a: Attempt): (r: (string, string))
    ensures r.1 == "yes" <==> dryRun || a.Connected?
    ensures dryRun ==> r == ("DRY_RUN", "yes")
    ensures !dryRun && a.Connected? && a.session.Ok? ==> r.0 == Session(a.session.value).0
    ensures !dryRun && (a.Refused? || a.session.Err?) ==> r.0 == ""
    ensures !dryRun && a.Refused? ==> (r.1 == "no SSH and yes ICMP" <==> a.ping == Some(true))
    ensures !dryRun && a.Refused? && a.ping != Some(true) ==> r.1 == "no SSH and no ICMP"
  {
    if dryRun then ("DRY_RUN", "yes")
    else match a
      case Refused(ping) => ("", if ping == Some(true) then "no SSH and yes ICMP" else "no SSH and no ICMP")
      case Connected(Err(_)) => ("", "yes")
      case Connected(Ok(p)) => (Session(p).0, "yes")
  }

  /** `process_device`: the row for one host; an exception out of the lookup becomes an
      `ERROR: ` serial with the unreachable verdict. */
  function ProcessDevice(name: string, ip: string, outcome: Result<(string, string)>): (row: (string, string, string, string))
    ensures row.0 == name && row.1 == ip
    ensures outcome.Ok? ==> (row.2, row.3) == outcome.value
    ensures outcome.Err? ==> row.2 == "ERROR: " + outcome.msg && row.3 == "no SSH and no ICMP"
  {
    match outcome
    case Ok((serial, alive)) => (name, ip, serial, alive)
    case Err(m) => (name, ip, "ERROR: " + m, "no SSH and no ICMP")
  }
}
