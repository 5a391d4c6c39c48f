/** The JunOS banner update: the login message is escaped into a quoted string inside a fixed
    `system { login { message "..."; } }` block, loaded with `load merge terminal`, committed,
    and the commit's output decides whether the host was updated. */
module JunosBanner {
  import opened Wrappers
  import opened Text
  import opened Shell
  import Folds
  import Rules

  // ---------------------------------------------------------------- escaping

  /** `s.replace(c, t)` for a one-character `c`: every occurrence of `c` replaced by `t`. */
  function Replace(s: string, c: char, t: string): (r: string)
    ensures c !in t ==> c !in r
    decreases |s|
  {
    if s == [] then [] else (if s[0] == c then t else [s[0]]) + Replace(s[1..], c, t)
  }

  lemma {:induction false} ReplaceAppend(a: string, b: string, c: char, t: string)
    ensures Replace(a + b, c, t) == Replace(a, c, t) + Replace(b, c, t)
    decreases |a|
  {
    if a == [] {
      assert a + b == b;
    } else {
      assert (a + b)[1..] == a[1..] + b;
      ReplaceAppend(a[1..], b, c, t);
    }
  }

  /** How one character of the banner is written inside the quoted message. */
  function EscapeChar(c: char): string {
    if c == '\\' then "\\\\" else if c == '"' then "\\\"" else if c == '\n' then "\\n" else [c]
  }

  /** The banner escaped character by character. */
  function Escaped(s: string): string
    decreases |s|
  {
    if s == [] then [] else EscapeChar(s[0]) + Escaped(s[1..])
  }

  lemma {:induction false} EscapedAppend(a: string, b: string)
    ensures Escaped(a + b) == Escaped(a) + Escaped(b)
    decreases |a|
  {
    if a == [] {
      assert a + b == b;
    } else {
      assert (a + b)[1..] == a[1..] + b;
      EscapedAppend(a[1..], b);
    }
  }

  /** The three replacements run in the script's order: backslashes first, then quotes, then
      newlines. */
  function Replaced(banner: string): string {
    Replace(Replace(Replace(banner, '\\', "\\\\"), '"', "\\\""), '\n', "\\n")
  }

  /** Because backslashes are doubled before quotes gain one, and newlines are only replaced
      last, the chain of replacements escapes each character on its own. */
  lemma {:induction false} ReplacedIsEscaped(s: string)
    ensures Replaced(s) == Escaped(s)
    decreases |s|
  {
    if s != [] {
      var c, rest := s[0], s[1..];
      assert s == [c] + rest;
      var r1 := Replace([c], '\\', "\\\\");
      ReplaceAppend([c], rest, '\\', "\\\\");
      var r2 := Replace(r1, '"', "\\\"");
      ReplaceAppend(r1, Replace(rest, '\\', "\\\\"), '"', "\\\"");
      ReplaceAppend(r2, Replace(Replace(rest, '\\', "\\\\"), '"', "\\\""), '\n', "\\n");
      assert Replace(r2, '\n', "\\n") == EscapeChar(c);
      ReplacedIsEscaped(rest);
    }
  }

  /** The escaped text holds no raw line break, so the message stays on one line. */
  lemma {:induction false} EscapedOneLine(s: string)
    ensures '\n' !in Escaped(s)
    decreases |s|
  {
    if s != [] {
      EscapedOneLine(s[1..]);
    }
  }

  /** Every quote in the escaped text comes right after a backslash. */
  lemma {:induction false} EscapedQuotes(s: string)
    ensures forall i :: 0 <= i < |Escaped(s)| && Escaped(s)[i] == '"' ==> i > 0 && Escaped(s)[i - 1] == '\\'
    decreases |s|
  {
    if s != [] {
      var head, rest := EscapeChar(s[0]), Escaped(s[1..]);
      EscapedQuotes(s[1..]);
      EscapedStart(s[1..]);
      assert Escaped(s) == head + rest;
      forall i | 0 <= i < |head + rest| && (head + rest)[i] == '"'
        ensures i > 0 && (head + rest)[i - 1] == '\\'
      {
        if i >= |head| {
          assert rest[i - |head|] == '"';
        }
      }
    }
  }

  /** The escaped text never starts with a quote. */
  lemma EscapedStart(s: string)
    ensures Escaped(s) != [] ==> Escaped(s)[0] != '"'
  {
  }

  // ---------------------------------------------------------------- reading the message back

  /** Reading a quoted string the way the block's syntax defines it, starting after the opening
      quote: `\\`, `\"` and `\n` stand for a backslash, a quote and a line break, the first
      unescaped quote closes the string, and a raw line break or any other escape is not part
      of the syntax. The result is the decoded text and what follows the closing quote. */
  function ReadLiteral(t: string): (r: Option<(string, string)>)
    decreases |t|
  {
    if t == [] || t[0] == '\n' then None
    else if t[0] == '"' then Some(("", t[1..]))
    else if t[0] == '\\' then
      if |t| < 2 || !(t[1] == '\\' || t[1] == '"' || t[1] == 'n') then None
      else match ReadLiteral(t[2..])
        case None => None
        case Some(p) => Some(([if t[1] == 'n' then '\n' else t[1]] + p.0, p.1))
    else match ReadLiteral(t[1..])
      case None => None
      case Some(p) => Some(([t[0]] + p.0, p.1))
  }

  /** Decoding the escaped text recovers the banner exactly, and the string ends at the quote
      placed after it. */
  lemma {:induction false} ReadEscaped(s: string, tail: string)
    ensures ReadLiteral(Escaped(s) + "\"" + tail) == Some((s, tail))
    decreases |s|
  {
    var t := Escaped(s) + "\"" + tail;
    if s == [] {
      assert t == "\"" + tail;
      assert t[1..] == tail;
    } else {
      var u := Escaped(s[1..]) + "\"" + tail;
      ReadEscaped(s[1..], tail);
      assert t == EscapeChar(s[0]) + u;
      ReadEscapedChar(s[0], u);
      assert [s[0]] + s[1..] == s;
    }
  }

  /** One escaped character is read back as itself, in front of whatever the rest reads as. */
  lemma ReadEscapedChar(c: char, u: string)
    ensures ReadLiteral(EscapeChar(c) + u) ==
      match ReadLiteral(u) case None => None case Some(p) => Some(([c] + p.0, p.1))
  {
    var e := EscapeChar(c);
    var t := e + u;
    if |e| == 2 {
      assert t[0] == '\\' && t[2..] == u;
    } else {
      assert t[0] == c && t[1..] == u;
    }
  }

  /** Only escaped text reads as a string: whatever reads as `(d, rest)` is exactly the escaping
      of `d`, a closing quote and `rest`. */
  lemma {:induction false} ReadLiteralCanonical(t: string)
    ensures ReadLiteral(t).Some? ==>
      t == Escaped(ReadLiteral(t).value.0) + "\"" + ReadLiteral(t).value.1
    decreases |t|
  {
    if t != [] && t[0] != '\n' && t[0] != '"' {
      if t[0] == '\\' {
        if |t| >= 2 && (t[1] == '\\' || t[1] == '"' || t[1] == 'n') {
          ReadLiteralCanonical(t[2..]);
          if ReadLiteral(t[2..]).Some? {
            var p := ReadLiteral(t[2..]).value;
            var c := if t[1] == 'n' then '\n' else t[1];
            assert Escaped([c] + p.0) == EscapeChar(c) + Escaped(p.0) by {
              assert ([c] + p.0)[1..] == p.0;
            }
            assert t == t[..2] + t[2..];
          }
        }
      } else {
        ReadLiteralCanonical(t[1..]);
        if ReadLiteral(t[1..]).Some? {
          var p := ReadLiteral(t[1..]).value;
          assert ([t[0]] + p.0)[1..] == p.0;
          assert t == [t[0]] + t[1..];
        }
      }
    } else if t != [] && t[0] == '"' {
      assert t == "\"" + t[1..];
    }
  }

  // ---------------------------------------------------------------- the configuration block

  /** The block up to the opening quote of the message. */
  const Opening := "system {\n  login {\n    message \""

  /** The closing quote and the rest of the block. */
  const Closing := "\";\n  }\n}\n"

  /** `build_junos_config_block`: the escaped banner in the fixed frame. Read back, the
      message is exactly the banner, and what follows it is the rest of the frame. */
  function ConfigBlock(banner: string): (snippet: string)
    ensures snippet == Opening + Escaped(banner) + Closing
    ensures StartsWith(snippet, Opening)
    ensures ReadLiteral(snippet[|Opening|..]) == Some((banner, Closing[1..]))
    ensures '\n' !in Escaped(banner)
  {
    ReplacedIsEscaped(banner);
    EscapedOneLine(banner);
    var snippet := "system {\n  login {\n    message \"" + Replaced(banner) + "\";\n  }\n}\n";
    assert snippet == Opening + (Escaped(banner) + "\"" + Closing[1..]);
    ReadEscaped(banner, Closing[1..]);
    snippet
  }

  // ---------------------------------------------------------------- one host

  /** What `run_on_host` sends after draining the banner. */
  function UpdateSends(block: string): seq<string> {
    ["configure\n", "load merge terminal\n", block + "\n", "\U{4}", "commit and-quit\n"]
  }

  /** The commit wait: at most 40 reads, no pager replies, stopping at the first chunk that
      reports the commit's outcome. */
  function CommitWait(script: seq<Reading>): (r: PollResult)
    ensures r.replies == []
  {
    PollReplies(script, 40, CommitReported, false);
    Poll(script, 40, CommitReported, false)
  }

  /** Whether `run_on_host` returns True: always on a dry run; otherwise when the connection
      opens and the output of the commit wait (after the one read that drains the banner)
      reports `commit complete`. */
  predicate HostUpdated(script: seq<Reading>, dryRun: bool, connects: bool) {
    dryRun || (connects && Rules.CommitSucceeded(CommitWait(Tail(script)).output))
  }

  /** `run_on_host`. `connects` says whether `connect` and `invoke_shell` succeed; the
      channel is what the device then answers. A dry run touches nothing. */
  method RunOnHost(ch: Channel, block: string, dryRun: bool, connects: bool) returns (ok: bool)
    modifies ch
    ensures ok == HostUpdated(old(ch.pending), dryRun, connects)
    ensures dryRun || !connects ==> ch.sent == old(ch.sent) && ch.pending == old(ch.pending)
    ensures !dryRun && connects ==>
      && ch.sent == old(ch.sent) + UpdateSends(block)
      && ch.pending == CommitWait(Tail(old(ch.pending))).unread
    ensures ch.open == (dryRun && old(ch.open))
  {
    if dryRun {
      return true;
    }
    if !connects {
      ch.Close();
      return false;
    }
    var _ := ch.Recv();
    var sends := UpdateSends(block);
    ghost var log0, script := ch.sent, ch.pending;
    ch.Send(sends[0]);
    ch.Send(sends[1]);
    ch.Send(sends[2]);
    ch.Send(sends[3]);
    ch.Send(sends[4]);
    Regroup(log0, [sends[0]], [sends[1]], [sends[2]], [sends[3]], [sends[4]]);
    FiveSends(sends);
    ghost var log := ch.sent;
    var output, _ := PollShell(ch, 40, CommitReported, false);
    ok := Contains(Lower(output), "commit complete");
    assert CommitWait(script).replies == [] && log + [] == log;
    ch.Close();
  }

  /** A list of five commands is its commands one after the other. */
  lemma FiveSends(sends: seq<string>)
    requires |sends| == 5
    ensures [sends[0]] + [sends[1]] + [sends[2]] + [sends[3]] + [sends[4]] == sends
  {
  }

  /** A commit whose first reported outcome says `commit complete` updates the host. */
  lemma CompleteCommitUpdates(drain: Reading, quiet: seq<string>, done: string, rest: seq<Reading>)
    requires |quiet| < 39 && forall i :: 0 <= i < |quiet| ==> !CommitReported(quiet[i])
    requires Contains(Lower(done), "commit complete")
    ensures HostUpdated([drain] + (Chunks(quiet) + [Chunk(done)] + rest), false, true)
  {
    var s := Chunks(quiet) + [Chunk(done)] + rest;
    assert Tail([drain] + s) == s;
    PollStopsAfter(quiet, done, rest, 40, CommitReported);
    Rules.CommitInChunk(Concat(Chunks(quiet)), done, "");
    assert Concat(Chunks(quiet)) + done + "" == Concat(Chunks(quiet)) + done;
  }

  /** The readings of a sequence of chunks. */
  function Chunks(cs: seq<string>): (rs: seq<Reading>)
    ensures |rs| == |cs| && forall i :: 0 <= i < |cs| ==> rs[i] == Chunk(cs[i])
    decreases |cs|
  {
    if cs == [] then [] else [Chunk(cs[0])] + Chunks(cs[1..])
  }

  /** Chunks that do not stop the loop are all read, and the stopping chunk ends it. */
  lemma {:induction false} PollStopsAfter(quiet: seq<string>, done: string, rest: seq<Reading>, n: nat,
      stop: string -> bool)
    requires |quiet| < n && forall i :: 0 <= i < |quiet| ==> !stop(quiet[i])
    requires stop(done)
    ensures var r := Poll(Chunks(quiet) + [Chunk(done)] + rest, n, stop, false);
      r.stopped && r.output == Concat(Chunks(quiet)) + done
    decreases |quiet|
  {
    var s := Chunks(quiet) + [Chunk(done)] + rest;
    if quiet == [] {
      assert s[0] == Chunk(done);
    } else {
      assert s[0] == Chunk(quiet[0]);
      assert Chunks(quiet) == [Chunk(quiet[0])] + Chunks(quiet[1..]);
      assert s[1..] == Chunks(quiet[1..]) + [Chunk(done)] + rest;
      PollStopsAfter(quiet[1..], done, rest, n - 1, stop);
      assert Concat(Chunks(quiet)) == quiet[0] + Concat(Chunks(quiet[1..]));
    }
  }

  // ---------------------------------------------------------------- the batch

  /** Each host's outcome, in hosts-file order. */
  function Outcomes(targets: seq<Target>, dryRun: bool): (r: seq<bool>)
    ensures |r| == |targets|
    ensures forall i :: 0 <= i < |r| ==>
      r[i] == HostUpdated(targets[i].device.script, dryRun, targets[i].device.connects)
  {
    seq(|targets|, i requires 0 <= i < |targets| =>
      HostUpdated(targets[i].device.script, dryRun, targets[i].device.connects))
  }

  /** The `main` loop: one run per host, each on its own connection, counting the True
      results. */
  method UpdateAll(targets: seq<Target>, block: string, dryRun: bool) returns (successes: nat)
    ensures successes == Folds.Count(Outcomes(targets, dryRun), Folds.IsTrue)
    ensures successes <= |targets|
    ensures dryRun ==> successes == |targets|
  {
    ghost var outcomes := Outcomes(targets, dryRun);
    successes := 0;
    for i := 0 to |targets|
      invariant successes == Folds.Count(outcomes[..i], Folds.IsTrue)
    {
      var ch := new Channel(targets[i].device.script);
      var ok := RunOnHost(ch, block, dryRun, targets[i].device.connects);
      Folds.CountStep(outcomes, i, Folds.IsTrue);
      if ok {
        successes := successes + 1;
      }
    }
    assert outcomes[..|targets|] == outcomes;
    if dryRun {
      Folds.CountAll(outcomes, Folds.IsTrue);
    }
  }
}
