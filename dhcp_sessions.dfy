/** The DHCP sessions: running one show command and saving its output, adding the guest
    DHCP pool and gathering its configuration into one report, and clearing the guest DHCP
    bindings. */
module DhcpSessions {
  import opened Wrappers
  import opened Text
  import opened Shell
  import opened Folds

  // ---------------------------------------------------------------- one command, saved per host

  /** The command's output: up to 120 reads after the guarded banner read, stopping at a
      prompt at the end of a chunk and answering the pager. The pool script waits for its
      `show` in the same way. */
  function CommandWait(script: seq<Reading>): (p: PollResult)
    ensures p.consumed <= 120
  {
    Poll(Tail(script), 120, PromptAtEnd, true)
  }

  /** `run_command_on_host` returns True exactly when no exception escaped: the connection
      opened and the output file could be written, whether or not a prompt was seen. */
  predicate CommandSucceeds(d: Device, saves: bool) {
    d.connects && saves
  }

  /** One host: the output is written to the host's file only when the session succeeds. */
  method RunCommandOnHost(ch: Channel, command: string, connects: bool, saves: bool)
    returns (ok: bool, saved: string)
    modifies ch
    ensures ok == CommandSucceeds(Device(connects, old(ch.pending)), saves)
    ensures ok ==> saved == CommandWait(old(ch.pending)).output
    ensures !ok ==> saved == ""
    ensures connects ==> ch.sent == old(ch.sent) + [command + "\n"] + CommandWait(old(ch.pending)).replies
    ensures !connects ==> ch.sent == old(ch.sent) && ch.pending == old(ch.pending)
    ensures !ch.open
  {
    ok, saved := false, "";
    if connects {
      var _ := ch.Recv();
      ch.Send(command + "\n");
      var out, _ := PollShell(ch, 120, PromptAtEnd, true);
      if saves {
        ok, saved := true, out;
      }
    }
    ch.Close();
  }

  /** Example: a device that answers the banner with a prompt and then falls silent still counts as
      a success once its (empty) output is saved. */
  lemma SuccessWithoutPrompt()
    ensures var d := Device(true, [Chunk("R1#"), Fail]);
      !CommandWait(d.script).stopped && CommandWait(d.script).output == "" && CommandSucceeds(d, true)
  {
    assert Tail([Chunk("R1#"), Fail]) == [Fail];
  }

  /** Each host's result, in host-list order. */
  function CommandOutcomes(targets: seq<Target>, saves: seq<bool>): (r: seq<bool>)
    requires |saves| == |targets|
    ensures |r| == |targets|
    ensures forall i :: 0 <= i < |r| ==> r[i] == CommandSucceeds(targets[i].device, saves[i])
  {
    seq(|targets|, i requires 0 <= i < |targets| => CommandSucceeds(targets[i].device, saves[i]))
  }

  /** The `main` loop: `success` counts the True results. */
  method RunCommandAll(targets: seq<Target>, command: string, saves: seq<bool>) returns (success: nat)
    requires |saves| == |targets|
    ensures success == Count(CommandOutcomes(targets, saves), IsTrue)
    ensures success <= |targets|
  {
    ghost var outcomes := CommandOutcomes(targets, saves);
    success := 0;
    for i := 0 to |targets|
      invariant success == Count(outcomes[..i], IsTrue)
    {
      var ch := new Channel(targets[i].device.script);
      var ok, _ := RunCommandOnHost(ch, command, targets[i].device.connects, saves[i]);
      CountStep(outcomes, i, IsTrue);
      if ok {
        success := success + 1;
      }
    }
    assert outcomes[..|targets|] == outcomes;
  }

  /** Every host that connects and saves counts: no host's success depends on a prompt. */
  lemma AllSavedAllCount(targets: seq<Target>, saves: seq<bool>)
    requires |saves| == |targets|
    requires forall i :: 0 <= i < |targets| ==> targets[i].device.connects && saves[i]
    ensures Count(CommandOutcomes(targets, saves), IsTrue) == |targets|
  {
    CountAll(CommandOutcomes(targets, saves), IsTrue);
  }

  // ---------------------------------------------------------------- the guest DHCP pool

  /** The configuration lines, then the show command, each with its newline. */
  function PoolSends(): (sends: seq<string>)
    ensures |sends| == 7 && sends[0] == "configure terminal\n" && sends[4] == "end\n"
  {
    ["configure terminal\n", "ip dhcp pool GUEST\n", " vrf GUEST\n", " lease 0 4\n", "end\n",
     "terminal length 0\n", "show running-config | section ip dhcp pool GUEST\n"]
  }

  /** `(ok, out)` of one host. */
  datatype HostResult = HostResult(ok: bool, text: string)

  /** A dry run succeeds with no output; a connection error fails with its message; otherwise
      the host succeeds with whatever the show command printed. */
  function PoolResult(d: Device, dryRun: bool, error: string): (r: HostResult)
    ensures r.ok <==> dryRun || d.connects
    ensures dryRun ==> r.text == ""
    ensures !dryRun && !d.connects ==> r.text == error
  {
    if dryRun then HostResult(true, "")
    else if !d.connects then HostResult(false, error)
    else HostResult(true, CommandWait(d.script).output)
  }

  /** One host. A dry run returns before a client exists; otherwise the client is closed on
      every path. `error` is the text of the connection error, should there be one. */
  method RunOnPoolHost(ch: Channel, dryRun: bool, connects: bool, error: string) returns (r: HostResult)
    modifies ch
    ensures r == PoolResult(Device(connects, old(ch.pending)), dryRun, error)
    ensures !dryRun && connects ==> ch.sent == old(ch.sent) + PoolSends() + CommandWait(old(ch.pending)).replies
    ensures dryRun || !connects ==> ch.sent == old(ch.sent) && ch.pending == old(ch.pending)
    ensures ch.open == (dryRun && old(ch.open))
  {
    if dryRun {
      return HostResult(true, "");
    }
    if !connects {
      ch.Close();
      return HostResult(false, error);
    }
    var _ := ch.Recv();
    var sends := PoolSends();
    ghost var log0 := ch.sent;
    ch.Send(sends[0]);
    ch.Send(sends[1]);
    assert ch.sent == log0 + sends[..2];
    ch.Send(sends[2]);
    assert ch.sent == log0 + sends[..3];
    ch.Send(sends[3]);
    assert ch.sent == log0 + sends[..4];
    ch.Send(sends[4]);
    assert ch.sent == log0 + sends[..5];
    ch.Send(sends[5]);
    assert ch.sent == log0 + sends[..6];
    ch.Send(sends[6]);
    assert ch.sent == log0 + sends;
    var out, _ := PollShell(ch, 120, PromptAtEnd, true);
    r := HostResult(true, out);
    ch.Close();
  }

  /** The block a host adds to the combined file. */
  function Section(t: Target, r: HostResult): (s: string)
    ensures StartsWith(s, "--- " + t.name + " (" + t.ip + ") ---\n")
    ensures EndsWith(s, "\n\n")
  {
    var header := "--- " + t.name + " (" + t.ip + ") ---\n";
    var body := if r.ok then r.text else "ERROR: " + r.text;
    assert (header + body + "\n\n")[..|header|] == header;
    header + body + "\n\n"
  }

  /** The sections of the hosts so far, in host-list order. */
  function Report(targets: seq<Target>, results: seq<HostResult>): string
    requires |results| == |targets|
    decreases |targets|
  {
    if targets == [] then ""
    else
      var n := |targets| - 1;
      Report(targets[..n], results[..n]) + Section(targets[n], results[n])
  }

  /** The combined file after the hosts so far. It starts empty, and each host writes back
      what `read_text()` returns followed by its own section, so the sections written before
      have their line ends normalised again every time a host is added. */
  function ReportFile(targets: seq<Target>, results: seq<HostResult>): string
    requires |results| == |targets|
    decreases |targets|
  {
    if targets == [] then ""
    else
      var n := |targets| - 1;
      ReadText(ReportFile(targets[..n], results[..n])) + Section(targets[n], results[n])
  }

  /** Each host's result, in host-list order. */
  function PoolResults(targets: seq<Target>, dryRun: bool, errors: seq<string>): (r: seq<HostResult>)
    requires |errors| == |targets|
    ensures |r| == |targets|
    ensures forall i :: 0 <= i < |r| ==> r[i] == PoolResult(targets[i].device, dryRun, errors[i])
  {
    seq(|targets|, i requires 0 <= i < |targets| => PoolResult(targets[i].device, dryRun, errors[i]))
  }

  predicate IsOk(r: HostResult) { r.ok }

  /** The `main` loop: the combined file starts empty and is rewritten once per host as its
      own text read back plus the host's section; `successes` counts the OK results. */
  method GatherAll(targets: seq<Target>, dryRun: bool, errors: seq<string>)
    returns (combined: string, successes: nat)
    requires |errors| == |targets|
    ensures combined == ReportFile(targets, PoolResults(targets, dryRun, errors))
    ensures successes == Count(PoolResults(targets, dryRun, errors), IsOk)
    ensures dryRun ==> successes == |targets|
  {
    ghost var results := PoolResults(targets, dryRun, errors);
    combined, successes := "", 0;
    for i := 0 to |targets|
      invariant combined == ReportFile(targets[..i], results[..i])
      invariant successes == Count(results[..i], IsOk)
    {
      var ch := new Channel(targets[i].device.script);
      var r := RunOnPoolHost(ch, dryRun, targets[i].device.connects, errors[i]);
      combined := ReadText(combined) + Section(targets[i], r);
      if r.ok {
        successes := successes + 1;
      }
      ReportStep(targets, results, i);
      CountStep(results, i, IsOk);
    }
    assert targets[..|targets|] == targets && results[..|targets|] == results;
    if dryRun {
      CountAll(results, IsOk);
    }
  }

  lemma ReportStep(targets: seq<Target>, results: seq<HostResult>, i: int)
    requires |results| == |targets| && 0 <= i < |targets|
    ensures Report(targets[..i + 1], results[..i + 1]) == Report(targets[..i], results[..i]) + Section(targets[i], results[i])
    ensures ReportFile(targets[..i + 1], results[..i + 1]) == ReadText(ReportFile(targets[..i], results[..i])) + Section(targets[i], results[i])
  {
    assert targets[..i + 1][..i] == targets[..i];
    assert results[..i + 1][..i] == results[..i];
  }

  /** The sections of the first `k` hosts are where the sections of all of them start. */
  lemma {:induction false} SectionsPrefix(targets: seq<Target>, results: seq<HostResult>, k: nat)
    requires |results| == |targets| && k <= |targets|
    ensures StartsWith(Report(targets, results), Report(targets[..k], results[..k]))
    decreases |targets|
  {
    if k == |targets| {
      assert targets[..k] == targets && results[..k] == results;
    } else {
      var n := |targets| - 1;
      SectionsPrefix(targets[..n], results[..n], k);
      assert targets[..n][..k] == targets[..k] && results[..n][..k] == results[..k];
    }
  }

  /** The sections end at a line end, so a `\r\n` never spans two of them. */
  lemma ReportEnd(targets: seq<Target>, results: seq<HostResult>)
    requires |results| == |targets|
    ensures var r := Report(targets, results); r == [] || r[|r| - 1] == '\n'
  {
    if targets != [] {
      var n := |targets| - 1;
      var last := Section(targets[n], results[n]);
      assert last[|last| - 1] == '\n';
    }
  }

  /** The final file holds every section but the last with its line ends normalised, then the
      last section as written. */
  lemma {:induction false} ReportFileForm(targets: seq<Target>, results: seq<HostResult>)
    requires |results| == |targets| && targets != []
    ensures var n := |targets| - 1;
      ReportFile(targets, results) == ReadText(Report(targets[..n], results[..n])) + Section(targets[n], results[n])
    decreases |targets|
  {
    var n := |targets| - 1;
    if n > 0 {
      var ts, rs := targets[..n], results[..n];
      ReportFileForm(ts, rs);
      assert ts[..n - 1] == targets[..n - 1] && rs[..n - 1] == results[..n - 1];
      var before := Report(targets[..n - 1], results[..n - 1]);
      var last := Section(ts[n - 1], rs[n - 1]);
      assert ReportFile(ts, rs) == ReadText(before) + last;
      ReadTextAppend(ReadText(before), last);
      ReadTextWithoutCR(ReadText(before));
      ReportEnd(targets[..n - 1], results[..n - 1]);
      ReadTextAppend(before, last);
      assert Report(ts, rs) == before + last;
    }
  }

  /** What the script wrote for the first `k` hosts, read back, is how the final file starts,
      for every host before the last. */
  lemma {:induction false} ReportPrefix(targets: seq<Target>, results: seq<HostResult>, k: nat)
    requires |results| == |targets| && k < |targets|
    ensures StartsWith(ReportFile(targets, results), ReadText(Report(targets[..k], results[..k])))
  {
    var n := |targets| - 1;
    ReportFileForm(targets, results);
    var ts, rs := targets[..n], results[..n];
    SectionsPrefix(ts, rs, k);
    assert ts[..k] == targets[..k] && rs[..k] == results[..k];
    var head := Report(targets[..k], results[..k]);
    var all := ReadText(Report(ts, rs));
    ReportEnd(targets[..k], results[..k]);
    ReadTextPrefix(head, Report(ts, rs));
    var last := Section(targets[n], results[n]);
    assert (all + last)[..|ReadText(head)|] == all[..|ReadText(head)|];
  }

  /** When no section holds a `\r`, the final file is the plain concatenation of the sections. */
  lemma {:induction false} ReportFileWithoutCR(targets: seq<Target>, results: seq<HostResult>)
    requires |results| == |targets| && '\r' !in Report(targets, results)
    ensures ReportFile(targets, results) == Report(targets, results)
  {
    if targets != [] {
      var n := |targets| - 1;
      ReportFileForm(targets, results);
      ReportStep(targets, results, n);
      assert targets[..n + 1] == targets && results[..n + 1] == results;
      ReadTextWithoutCR(Report(targets[..n], results[..n]));
    }
  }

  /** A failed host's section says so: `ERROR: ` follows its header. */
  lemma FailedSection(t: Target, r: HostResult)
    requires !r.ok
    ensures var header := "--- " + t.name + " (" + t.ip + ") ---\n";
      Section(t, r)[|header|..|header| + 7] == "ERROR: "
  {
  }

  // ---------------------------------------------------------------- clearing the guest bindings

  const ClearCommand := "clear ip dhcp binding vrf GUEST *\n"

  /** The two unguarded reads either side of `cli`: a failure of either ends the session. */
  predicate ClearAborts(script: seq<Reading>) {
    Head(script) == Fail || Head(Tail(script)) == Fail
  }

  /** The wait after the clear command: up to 10 reads, stopping at a chunk with `>` or `#`
      anywhere in it, never answering a pager. */
  function ClearWait(script: seq<Reading>): (p: PollResult)
    ensures p.consumed <= 10 && p.replies == []
  {
    PollReplies(Tail(Tail(script)), 10, PromptAnywhere, false);
    Poll(Tail(Tail(script)), 10, PromptAnywhere, false)
  }

  /** The output a host prints, if its session gets that far. */
  function ClearOutput(d: Device): (printed: Option<string>)
    ensures printed.Some? <==> d.connects && !ClearAborts(d.script)
  {
    if !d.connects || ClearAborts(d.script) then None else Some(ClearWait(d.script).output)
  }

  /** What the session writes: `cli` once the banner is read, then the clear command once
      the answer to `cli` is read; nothing else. */
  function ClearSends(script: seq<Reading>): (sends: seq<string>)
    ensures |sends| <= 2 && sends == ["cli\n", ClearCommand][..|sends|]
  {
    if Head(script) == Fail then []
    else if Head(Tail(script)) == Fail then ["cli\n"]
    else ["cli\n"] + [ClearCommand]
  }

  /** One host of either clearing script; the client is closed on every path. */
  method ClearHost(ch: Channel, connects: bool) returns (printed: Option<string>)
    modifies ch
    ensures printed == ClearOutput(Device(connects, old(ch.pending)))
    ensures connects ==> ch.sent == old(ch.sent) + ClearSends(old(ch.pending))
    ensures !connects ==> ch.sent == old(ch.sent) && ch.pending == old(ch.pending)
    ensures !ch.open
  {
    printed := None;
    if connects {
      printed := ClearSession(ch);
    }
    ch.Close();
  }

  /** The connected part of a clearing session. */
  method ClearSession(ch: Channel) returns (printed: Option<string>)
    modifies ch
    ensures printed == ClearOutput(Device(true, old(ch.pending)))
    ensures ch.sent == old(ch.sent) + ClearSends(old(ch.pending))
    ensures ch.open == old(ch.open)
  {
    ghost var script, log0 := ch.pending, ch.sent;
    var banner := ch.Recv();
    if banner == Fail {
      return None;
    }
    ch.Send("cli\n");
    var drained := ch.Recv();
    if drained == Fail {
      return None;
    }
    ch.Send(ClearCommand);
    assert ch.pending == Tail(Tail(script));
    var output, _ := PollShell(ch, 10, PromptAnywhere, false);
    assert ch.sent == log0 + ["cli\n"] + [ClearCommand] + ClearWait(script).replies;
    Regroup3(log0, ["cli\n"], [ClearCommand], []);
    printed := Some(output);
  }

  /** What each host printed, in host-list order. */
  function ClearOutputs(targets: seq<Target>): (r: seq<Option<string>>)
    ensures |r| == |targets| && forall i :: 0 <= i < |r| ==> r[i] == ClearOutput(targets[i].device)
  {
    seq(|targets|, i requires 0 <= i < |targets| => ClearOutput(targets[i].device))
  }

  /** The host loop of either clearing script: a failing host does not stop the batch. */
  method ClearAll(targets: seq<Target>) returns (printed: seq<Option<string>>)
    ensures printed == ClearOutputs(targets)
  {
    printed := [];
    for i := 0 to |targets|
      invariant printed == ClearOutputs(targets)[..i]
    {
      var ch := new Channel(targets[i].device.script);
      var out := ClearHost(ch, targets[i].device.connects);
      printed := printed + [out];
    }
  }

  /** The printed output is the text of the chunks read, up to and including the first
      chunk with a prompt character, or up to the first failed read. */
  lemma ClearOutputIsChunks(d: Device)
    requires d.connects && !ClearAborts(d.script)
    ensures var s := Tail(Tail(d.script)); var p := ClearWait(d.script);
      && ClearOutput(d) == Some(Concat(s[..p.consumed]))
      && forall j :: 0 <= j < p.consumed - 1 ==> s[j].Chunk? && !PromptAnywhere(s[j].text)
  {
    var s := Tail(Tail(d.script));
    PollOutputIsConcat(s, 10, PromptAnywhere, false);
    PollStopsOnFirst(s, 10, PromptAnywhere, false);
  }
}
