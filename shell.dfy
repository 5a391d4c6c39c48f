/** The interactive shell every script drives: a channel whose reads come from a fixed
    script of device output, and the bounded read loop that waits for a prompt. */
module Shell {
  import opened Text
  import Folds

  /** One `shell.recv(65535).decode(...)`: the decoded text, or an exception (the two-second
      socket timeout, a closed channel, a UTF-8 decode error). */
  datatype Reading = Chunk(text: string) | Fail

  /** The next read from what the device still has to say; once that is exhausted every read
      times out. */
  function Head(script: seq<Reading>): (r: Reading)
    ensures script == [] ==> r == Fail
  {
    if script == [] then Fail else script[0]
  }

  function Tail(script: seq<Reading>): (r: seq<Reading>)
    ensures script != [] ==> [script[0]] + r == script
    ensures script == [] ==> r == []
  {
    if script == [] then [] else script[1..]
  }

  /** An invoked shell: `pending` is what the device will answer, in order, and `sent` is
      everything written to it. */
  class Channel {
    var pending: seq<Reading>
    var sent: seq<string>
    var open: bool

    constructor (script: seq<Reading>)
      ensures pending == script && sent == [] && open
    {
      pending, sent, open := script, [], true;
    }

    method Recv() returns (r: Reading)
      modifies this
      ensures r == Head(old(pending)) && pending == Tail(old(pending))
      ensures sent == old(sent) && open == old(open)
    {
      r := Head(pending);
      pending := Tail(pending);
    }

    method Send(s: string)
      modifies this
      ensures sent == old(sent) + [s]
      ensures pending == old(pending) && open == old(open)
    {
      sent := sent + [s];
    }

    method Close()
      modifies this
      ensures !open && pending == old(pending) && sent == old(sent)
    {
      open := false;
    }
  }

  /** What a host does when a script contacts it: whether `connect` and `invoke_shell`
      succeed, and what the shell then answers. */
  datatype Device = Device(connects: bool, script: seq<Reading>)

  /** One entry of a host list, `(ip, name)`, with the device behind it. */
  datatype Target = Target(ip: string, name: string, device: Device)

  // ---------------------------------------------------------------- the read loop

  /** Cisco and JunOS pagers print this and wait for a key. */
  const PagerMarker := "--More--"

  /** The key the scripts answer the pager with. */
  const PagerReply := " "

  /** The prompt test of most scripts: the stripped chunk ends with `>` or `#`. */
  predicate PromptAtEnd(c: string) {
    EndsWith(Strip(c), ">") || EndsWith(Strip(c), "#")
  }

  /** The prompt test of the DHCP-clearing scripts: `>` or `#` anywhere in the chunk. */
  predicate PromptAnywhere(c: string) {
    '>' in c || '#' in c
  }

  /** The commit-wait test: the lower-cased chunk reports a commit outcome. */
  predicate CommitReported(c: string) {
    || Contains(Lower(c), "commit complete")
    || Contains(Lower(c), "error:")
    || Contains(Lower(c), "configuration check")
  }

  /** The chunk asks for the next page. */
  predicate Pages(r: Reading) {
    r.Chunk? && Contains(r.text, PagerMarker)
  }

  /** `output` is what the loop accumulated, `stopped` the `prompt_found` flag, `consumed` the
      number of script entries read, `replies` what the loop sent and `unread` what the device
      still has to say afterwards. */
  datatype PollResult =
    PollResult(output: string, stopped: bool, consumed: nat, replies: seq<string>, unread: seq<Reading>)

  /** The loop `for _ in range(loops)`: read; on an exception break; append the chunk; answer
      the pager if enabled and the chunk shows the marker; break if the chunk stops the loop. */
  function Poll(script: seq<Reading>, loops: nat, stop: string -> bool, pager: bool): (r: PollResult)
    ensures r.consumed <= loops && r.consumed <= |script|
    ensures |r.replies| <= r.consumed
    decreases loops
  {
    if loops == 0 then PollResult("", false, 0, [], script)
    else if script == [] then PollResult("", false, 0, [], [])
    else match script[0]
      case Fail => PollResult("", false, 1, [], script[1..])
      case Chunk(c) =>
        var reply := ReplyTo(c, pager);
        if stop(c) then PollResult(c, true, 1, reply, script[1..])
        else
          var rest := Poll(script[1..], loops - 1, stop, pager);
          PollResult(c + rest.output, rest.stopped, rest.consumed + 1, reply + rest.replies, rest.unread)
  }

  /** One iteration of `Poll`, for the loop below: the reply a chunk draws. */
  function ReplyTo(c: string, pager: bool): (r: seq<string>)
    ensures r == [] || r == [PagerReply]
  {
    if pager && Contains(c, PagerMarker) then [PagerReply] else []
  }

  /** The loop's state after some reads, followed by what the remaining reads produce. */
  function Join(output: string, k: nat, acc: seq<string>, rest: PollResult): PollResult {
    PollResult(output + rest.output, rest.stopped, k + rest.consumed, acc + rest.replies, rest.unread)
  }

  /** After `k` reads that gave `output` and left `log` written, the remaining `n` rounds on
      `unread` complete the run `p` that started with `sent0` written. */
  predicate Resumes(p: PollResult, sent0: seq<string>, output: string, k: nat, log: seq<string>,
      unread: seq<Reading>, n: nat, stop: string -> bool, pager: bool)
  {
    PollResult(p.output, p.stopped, p.consumed, sent0 + p.replies, p.unread)
      == Join(output, k, log, Poll(unread, n, stop, pager))
  }

  /** The run `p` ended with `output` read, `stopped` set, `log` written and `unread` left. */
  predicate Ends(p: PollResult, sent0: seq<string>, output: string, stopped: bool, log: seq<string>,
      unread: seq<Reading>)
  {
    p.output == output && p.stopped == stopped && sent0 + p.replies == log && p.unread == unread
  }

  lemma ResumesStart(script: seq<Reading>, loops: nat, stop: string -> bool, pager: bool, sent0: seq<string>)
    ensures Resumes(Poll(script, loops, stop, pager), sent0, "", 0, sent0, script, loops, stop, pager)
  {
    var p := Poll(script, loops, stop, pager);
    assert "" + p.output == p.output;
  }

  /** One iteration of `Poll` seen from the loop: a failed read ends it, a stopping chunk ends
      it after being appended, any other chunk is appended and the loop goes on, and a loop
      with no rounds left has ended. */
  lemma ResumesFail(p: PollResult, sent0: seq<string>, output: string, k: nat, log: seq<string>,
      s: seq<Reading>, n: nat, stop: string -> bool, pager: bool)
    requires n > 0 && Head(s) == Fail && Resumes(p, sent0, output, k, log, s, n, stop, pager)
    ensures Ends(p, sent0, output, false, log, Tail(s))
  {
    assert output + "" == output && log + [] == log;
  }

  lemma ResumesStop(p: PollResult, sent0: seq<string>, output: string, k: nat, log: seq<string>,
      s: seq<Reading>, n: nat, stop: string -> bool, pager: bool)
    requires n > 0 && Head(s).Chunk? && stop(Head(s).text)
    requires Resumes(p, sent0, output, k, log, s, n, stop, pager)
    ensures Ends(p, sent0, output + Head(s).text, true, log + ReplyTo(Head(s).text, pager), Tail(s))
  {
  }

  lemma ResumesOn(p: PollResult, sent0: seq<string>, output: string, k: nat, log: seq<string>,
      s: seq<Reading>, n: nat, stop: string -> bool, pager: bool)
    requires n > 0 && Head(s).Chunk? && !stop(Head(s).text)
    requires Resumes(p, sent0, output, k, log, s, n, stop, pager)
    ensures Resumes(p, sent0, output + Head(s).text, k + 1, log + ReplyTo(Head(s).text, pager),
      Tail(s), n - 1, stop, pager)
  {
    var rest := Poll(Tail(s), n - 1, stop, pager);
    assert output + (Head(s).text + rest.output) == (output + Head(s).text) + rest.output;
    assert log + (ReplyTo(Head(s).text, pager) + rest.replies)
      == (log + ReplyTo(Head(s).text, pager)) + rest.replies;
  }

  lemma ResumesDone(p: PollResult, sent0: seq<string>, output: string, k: nat, log: seq<string>,
      s: seq<Reading>, stop: string -> bool, pager: bool)
    requires Resumes(p, sent0, output, k, log, s, 0, stop, pager)
    ensures Ends(p, sent0, output, false, log, s)
  {
    assert output + "" == output && log + [] == log;
  }

  /** The loop on a live channel: it reads exactly what `Poll` says, sends exactly its replies
      and leaves the remaining device output unread. */
  method PollShell(ch: Channel, loops: nat, stop: string -> bool, pager: bool)
    returns (output: string, stopped: bool)
    modifies ch
    ensures var p := Poll(old(ch.pending), loops, stop, pager);
      && output == p.output && stopped == p.stopped
      && ch.pending == p.unread
      && ch.sent == old(ch.sent) + p.replies
      && ch.open == old(ch.open)
  {
    ghost var start, sent0 := ch.pending, ch.sent;
    ghost var p := Poll(start, loops, stop, pager);
    ghost var unread, k: nat := start, 0;
    output, stopped := "", false;
    ResumesStart(start, loops, stop, pager, sent0);
    var i := 0;
    while i < loops
      invariant 0 <= i <= loops
      invariant ch.pending == unread && ch.open == old(ch.open)
      invariant !stopped
      invariant Resumes(p, sent0, output, k, ch.sent, unread, loops - i, stop, pager)
    {
      ghost var n := loops - i;
      var r := ch.Recv();
      assert r == Head(unread);
      if r == Fail {
        ResumesFail(p, sent0, output, k, ch.sent, unread, n, stop, pager);
        unread := Tail(unread);
        break;
      }
      ghost var log := ch.sent;
      if ReplyTo(r.text, pager) != [] {
        ch.Send(PagerReply);
      } else {
        assert log + ReplyTo(r.text, pager) == log;
      }
      if stop(r.text) {
        ResumesStop(p, sent0, output, k, log, unread, n, stop, pager);
        output, unread := output + r.text, Tail(unread);
        stopped := true;
        break;
      }
      ResumesOn(p, sent0, output, k, log, unread, n, stop, pager);
      output, k, unread := output + r.text, k + 1, Tail(unread);
      i := i + 1;
    }
    if i == loops && !stopped {
      ResumesDone(p, sent0, output, k, ch.sent, unread, stop, pager);
    }
    assert Ends(p, sent0, output, stopped, ch.sent, unread);
  }

  /** Appending the parts of a write log one by one appends their concatenation. */
  lemma Regroup(log: seq<string>, a: seq<string>, b: seq<string>, c: seq<string>, d: seq<string>,
      e: seq<string>)
    ensures log + a + b + c + d + e == log + (a + b + c + d + e)
  {
  }

  /** The same for three parts. */
  lemma Regroup3(log: seq<string>, a: seq<string>, b: seq<string>, c: seq<string>)
    ensures log + a + b + c == log + (a + b + c)
  {
  }

  // ---------------------------------------------------------------- what the loop guarantees

  /** The text of the readings, failures contributing nothing. */
  function Concat(rs: seq<Reading>): string
    decreases |rs|
  {
    if rs == [] then "" else (if rs[0].Chunk? then rs[0].text else "") + Concat(rs[1..])
  }

  /** `n` copies of `s`. */
  function Repeat(s: string, n: nat): (r: seq<string>)
    ensures |r| == n && forall i :: 0 <= i < n ==> r[i] == s
  {
    if n == 0 then [] else [s] + Repeat(s, n - 1)
  }

  lemma PrefixCons(s: seq<Reading>, k: nat)
    requires s != [] && k < |s|
    ensures s[..k + 1] == [s[0]] + s[1..][..k]
  {
  }

  /** The reads the loop did not make are left to whatever the script does next. */
  lemma {:induction false} PollUnread(s: seq<Reading>, n: nat, stop: string -> bool, pager: bool)
    ensures var r := Poll(s, n, stop, pager); r.unread == s[r.consumed..]
    decreases n
  {
    if n > 0 && s != [] && s[0].Chunk? && !stop(s[0].text) {
      PollUnread(s[1..], n - 1, stop, pager);
    }
  }

  /** The accumulated output is the concatenation of the chunks read, in order. */
  lemma {:induction false} PollOutputIsConcat(s: seq<Reading>, n: nat, stop: string -> bool, pager: bool)
    ensures var r := Poll(s, n, stop, pager); r.output == Concat(s[..r.consumed])
    decreases n
  {
    var r := Poll(s, n, stop, pager);
    if n > 0 && s != [] {
      PrefixCons(s, 0);
      if s[0].Chunk? && !stop(s[0].text) {
        var rest := Poll(s[1..], n - 1, stop, pager);
        PollOutputIsConcat(s[1..], n - 1, stop, pager);
        PrefixCons(s, rest.consumed);
      }
    }
  }

  /** `prompt_found` is set exactly when the last reading was a chunk that stops the loop, and
      every reading before it was a chunk that did not. */
  lemma {:induction false} PollStopsOnFirst(s: seq<Reading>, n: nat, stop: string -> bool, pager: bool)
    ensures var r := Poll(s, n, stop, pager);
      && (r.stopped <==> r.consumed > 0 && s[r.consumed - 1].Chunk? && stop(s[r.consumed - 1].text))
      && forall j :: 0 <= j < r.consumed - 1 ==> s[j].Chunk? && !stop(s[j].text)
    decreases n
  {
    if n > 0 && s != [] && s[0].Chunk? && !stop(s[0].text) {
      PollStopsOnFirst(s[1..], n - 1, stop, pager);
    }
  }

  /** The loop ends only for one of four reasons: a stopping chunk, a read error, the loop
      bound, or a device with nothing more to say (whose next read would time out). */
  lemma {:induction false} PollEnds(s: seq<Reading>, n: nat, stop: string -> bool, pager: bool)
    ensures var r := Poll(s, n, stop, pager);
      || r.stopped
      || (r.consumed > 0 && s[r.consumed - 1] == Fail)
      || r.consumed == n
      || r.consumed == |s|
    decreases n
  {
    if n > 0 && s != [] && s[0].Chunk? && !stop(s[0].text) {
      PollEnds(s[1..], n - 1, stop, pager);
    }
  }

  /** A read error ends the loop softly: no prompt, and the output read before it is kept. */
  lemma {:induction false} PollFailKeepsOutput(s: seq<Reading>, n: nat, stop: string -> bool, pager: bool, k: nat)
    requires k < n && k < |s| && s[k] == Fail
    requires forall j :: 0 <= j < k ==> s[j].Chunk? && !stop(s[j].text)
    ensures var r := Poll(s, n, stop, pager);
      r.consumed == k + 1 && !r.stopped && r.output == Concat(s[..k])
    decreases k
  {
    PrefixCons(s, 0);
    if k > 0 {
      PollFailKeepsOutput(s[1..], n - 1, stop, pager, k - 1);
      PrefixCons(s, k - 1);
    }
  }

  /** Exactly one pager reply per chunk read that shows the marker (however many times it
      does), and none at all when the script does not answer the pager. */
  lemma PollReplies(s: seq<Reading>, n: nat, stop: string -> bool, pager: bool)
    ensures var r := Poll(s, n, stop, pager);
      r.replies == if pager then Repeat(PagerReply, Folds.Count(s[..r.consumed], Pages)) else []
  {
    if pager {
      PollPagerReplies(s, n, stop);
    } else {
      PollNoReplies(s, n, stop);
    }
  }

  lemma {:induction false} PollNoReplies(s: seq<Reading>, n: nat, stop: string -> bool)
    ensures Poll(s, n, stop, false).replies == []
    decreases n
  {
    if n > 0 && s != [] && s[0].Chunk? && !stop(s[0].text) {
      PollNoReplies(s[1..], n - 1, stop);
    }
  }

  lemma {:induction false} PollPagerReplies(s: seq<Reading>, n: nat, stop: string -> bool)
    ensures var r := Poll(s, n, stop, true); r.replies == Repeat(PagerReply, Folds.Count(s[..r.consumed], Pages))
    decreases n
  {
    if n > 0 && s != [] {
      if s[0].Chunk? && !stop(s[0].text) {
        PollPagerReplies(s[1..], n - 1, stop);
        PagerRepliesOn(s, n, stop);
      } else {
        PrefixCons(s, 0);
        Folds.CountCons(s[0], [], Pages);
        assert s[1..][..0] == [];
      }
    }
  }

  /** The inductive step of `PollPagerReplies`. */
  lemma PagerRepliesOn(s: seq<Reading>, n: nat, stop: string -> bool)
    requires n > 0 && s != [] && s[0].Chunk? && !stop(s[0].text)
    requires var r := Poll(s[1..], n - 1, stop, true);
      r.replies == Repeat(PagerReply, Folds.Count(s[1..][..r.consumed], Pages))
    ensures var r := Poll(s, n, stop, true); r.replies == Repeat(PagerReply, Folds.Count(s[..r.consumed], Pages))
  {
    var rest := Poll(s[1..], n - 1, stop, true);
    PrefixCons(s, rest.consumed);
    Folds.CountCons(s[0], s[1..][..rest.consumed], Pages);
    RepliesCons(s[0], Folds.Count(s[1..][..rest.consumed], Pages));
  }

  /** The reply to one chunk followed by `m` replies. */
  lemma RepliesCons(r: Reading, m: nat)
    requires r.Chunk?
    ensures ReplyTo(r.text, true) + Repeat(PagerReply, m) == Repeat(PagerReply, (if Pages(r) then 1 else 0) + m)
  {
    if Pages(r) {
      assert Repeat(PagerReply, m + 1) == [PagerReply] + Repeat(PagerReply, m);
    }
  }

  /** A chunk that ends the prompt-at-end loop would also end the prompt-anywhere loop. */
  lemma PromptAtEndIsStricter(c: string)
    requires PromptAtEnd(c)
    ensures PromptAnywhere(c)
  {
    if EndsWith(Strip(c), ">") {
      assert Strip(c)[|Strip(c)| - 1] == '>';
      StripInside(c, '>');
    } else {
      assert Strip(c)[|Strip(c)| - 1] == '#';
      StripInside(c, '#');
    }
  }

  /** Example: a paged listing, with any loop bound of at least two reads: the first chunk draws one
      reply, the prompt in the second ends the loop. */
  lemma PagedListing(n: nat)
    requires n >= 2
    ensures var r := Poll([Chunk("line1\n--More--"), Chunk("\nR1#")], n, PromptAtEnd, true);
      && r.output == "line1\n--More--" + "\nR1#" && r.stopped && r.consumed == 2 && r.replies == [" "]
  {
    var c1, c2 := "line1\n--More--", "\nR1#";
    PageChunk(c1);
    PromptChunk(c2);
    var s := [Chunk(c1), Chunk(c2)];
    assert s[1..] == [Chunk(c2)];
    var rest := Poll(s[1..], n - 1, PromptAtEnd, true);
    assert rest == PollResult(c2, true, 1, [], []);
    assert ReplyTo(c1, true) == [" "];
    assert Poll(s, n, PromptAtEnd, true) == PollResult(c1 + c2, true, 2, [" "] + [], []);
  }

  lemma PageChunk(c: string)
    requires c == "line1\n--More--"
    ensures Contains(c, PagerMarker) && !PromptAtEnd(c)
  {
    ContainsAt(c, PagerMarker, 6);
    assert Strip(c) == c;
  }

  lemma PromptChunk(c: string)
    requires c == "\nR1#"
    ensures !Contains(c, PagerMarker) && PromptAtEnd(c)
  {
    ShortNotContains(c, PagerMarker);
    assert c[1..] == "R1#";
    assert LStrip(c) == LStrip("R1#");
    StripOfStripped("R1#");
  }
}
