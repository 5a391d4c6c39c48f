/** The two WLC verification scripts: what they extract from a controller's command output and
    the result records they produce. */
module Wlc {
  import opened Wrappers
  import opened Text

  // ---------------------------------------------------------------- first script: inventory

  /** The class `[\w-]`: a word character or `-`. */
  predicate IsIdChar(c: char) {
    IsPyWordChar(c) || c == '-'
  }

  /** `<tag>\s*([\w-]+)` matched at the start of `t`. */
  function TagAt(tag: string): string -> Option<string> {
    (t: string) =>
      if StartsWith(t, tag) && TakeWhile(LStrip(t[|tag|..]), IsIdChar) != []
      then Some(TakeWhile(LStrip(t[|tag|..]), IsIdChar))
      else None
  }

  /** The model reported for a PID: `5520` wins over `5508`; otherwise the PID itself. */
  function ModelOfPid(pid: string): (model: string)
    ensures Contains(pid, "5520") ==> model == "5520"
    ensures !Contains(pid, "5520") && Contains(pid, "5508") ==> model == "5508"
    ensures !Contains(pid, "5520") && !Contains(pid, "5508") ==> model == pid
  {
    if Contains(pid, "5520") then "5520"
    else if Contains(pid, "5508") then "5508"
    else pid
  }

  /** The model always occurs in the PID it was derived from. */
  lemma ModelInPid(pid: string)
    ensures Contains(pid, ModelOfPid(pid))
  {
    if !Contains(pid, "5520") && !Contains(pid, "5508") {
      assert pid[..|pid|] == pid;
    }
  }

  /** `(pid, model, serial)` from `show inventory`. */
  function InventoryIds(inventory: string): (r: (string, string, string))
    ensures Search(inventory, TagAt("PID:")).None? ==> r.0 == "Unknown" && r.1 == "Unknown"
    ensures Search(inventory, TagAt("PID:")).Some? ==>
      r.0 == Search(inventory, TagAt("PID:")).value && r.1 == ModelOfPid(r.0) && Contains(r.0, r.1)
    ensures r.2 == match Search(inventory, TagAt("SN:")) case None => "Unknown" case Some(sn) => sn
  {
    var pid := Search(inventory, TagAt("PID:"));
    var sn := Search(inventory, TagAt("SN:"));
    var serial := if sn.Some? then sn.value else "Unknown";
    match pid
    case None => ("Unknown", "Unknown", serial)
    case Some(p) =>
      ModelInPid(p);
      (p, ModelOfPid(p), serial)
  }

  /** No whitespace character is an id character. */
  lemma IdCharNotSpace(c: char)
    requires IsIdChar(c)
    ensures !IsSpace(c)
  {
    if IsSpace(c) {
      SpaceNotWordChar(c);
    }
  }

  /** After a tag and one space, the pattern's `\s*` stops at the first non-space. */
  lemma AfterTag(tag: string, x: string)
    requires x != [] && !IsSpace(x[0])
    ensures StartsWith(tag + " " + x, tag) && LStrip((tag + " " + x)[|tag|..]) == x
  {
    var t := tag + " " + x;
    assert t[..|tag|] == tag;
    assert t[|tag|..] == " " + x;
    assert LStrip(" " + x) == LStrip(x);
    LStripOfStripped(x);
  }

  /** A tag printed as `tag value` captures that value. */
  lemma TagAtValue(tag: string, v: string, post: string)
    requires v != [] && forall j :: 0 <= j < |v| ==> IsIdChar(v[j])
    requires post == [] || !IsIdChar(post[0])
    ensures TagAt(tag)(tag + " " + v + post) == Some(v)
  {
    IdCharNotSpace(v[0]);
    assert (v + post)[0] == v[0];
    AfterTag(tag, v + post);
    assert tag + " " + v + post == tag + " " + (v + post);
    TakeWhileRun(v, post, IsIdChar);
  }

  // ---------------------------------------------------------------- second script: version

  /** `<name>\s*:\s*(\S+)` matched at the start of `t`. */
  function LabelAt(name: string): string -> Option<string> {
    (t: string) => LabelMatch(name, t)
  }

  function LabelMatch(name: string, t: string): Option<string> {
    if StartsWith(t, name) && LStrip(t[|name|..]) != [] && LStrip(t[|name|..])[0] == ':'
      && TakeWord(LStrip(LStrip(t[|name|..])[1..])) != []
    then Some(TakeWord(LStrip(LStrip(t[|name|..])[1..])))
    else None
  }

  /** The result's fields. */
  datatype Field = Ip | Model | SerialNumber | HaSummary | WirelessState | MobilitySummary | MobilityAnchor | Timestamp | Error

  /** Each field's column name. */
  function Name(f: Field): string {
    match f
    case Ip => "ip"
    case Model => "model"
    case SerialNumber => "serial_number"
    case HaSummary => "ha_summary"
    case WirelessState => "wireless_state"
    case MobilitySummary => "mobility_summary"
    case MobilityAnchor => "mobility_anchor"
    case Timestamp => "timestamp"
    case Error => "error"
  }

  /** Distinct fields have distinct column names, so a record keyed by field is one keyed by
      column name. */
  lemma NameInjective(f: Field, g: Field)
    requires Name(f) == Name(g)
    ensures f == g
  {
  }

  /** `csv_fields`, in the order of the output file. */
  const CsvFields: seq<Field> :=
    [Ip, Model, SerialNumber, HaSummary, WirelessState, MobilitySummary, MobilityAnchor, Timestamp, Error]

  lemma CsvFieldsAll()
    ensures forall f: Field :: f in CsvFields
  {
    forall f: Field ensures f in CsvFields {
      assert f == CsvFields[Index(f)];
    }
  }

  /** A field's position in `csv_fields`. */
  function Index(f: Field): (i: nat)
    ensures i < |CsvFields| && CsvFields[i] == f
  {
    match f
    case Ip => 0
    case Model => 1
    case SerialNumber => 2
    case HaSummary => 3
    case WirelessState => 4
    case MobilitySummary => 5
    case MobilityAnchor => 6
    case Timestamp => 7
    case Error => 8
  }

  /** What a session got: the outputs of `show version`, `show redundancy`, `show wireless
      summary` and the two mobility commands, as far as it got, and the exception that stopped it,
      if any. */
  datatype Outcome = Outcome(outs: seq<string>, err: Option<string>)

  /** An exception stops the session; without one all five commands ran. */
  predicate Possible(o: Outcome) {
    |o.outs| <= 5 && (o.err.None? ==> |o.outs| == 5)
  }

  /** What the steps of the `try` block set, from the outputs read so far: each field keeps its
      default `""` when the session raised before its step. */
  datatype Steps = Steps(model: string, serial: string, ha: string, wireless: string, mobility: string, anchor: string)

  function StepsOf(outs: seq<string>): Steps {
    Steps(
      if |outs| >= 1 then LabelValue(outs[0], "Model Number") else "",
      if |outs| >= 1 then LabelValue(outs[0], "System Serial Number") else "",
      if |outs| >= 2 then Strip(outs[1]) else "",
      if |outs| >= 3 then Strip(outs[2]) else "",
      if |outs| >= 4 then Strip(outs[3]) else "",
      if |outs| >= 5 then Strip(outs[4]) else "")
  }

  /** The labelled value found in `show version`, or `Unknown`. */
  function LabelValue(out: string, name: string): string {
    match Search(out, LabelAt(name)) case None => "Unknown" case Some(m) => m
  }

  /** `str(e)` of the exception that stopped the session, or `""`. */
  function ErrorText(o: Outcome): string {
    if o.err.Some? then o.err.value else ""
  }

  /** A field's value: the address and time stamp as given, the exception's text or `""`, and
      for the other fields the value of the step that fills them. */
  function FieldValue(f: Field, ip: string, timestamp: string, o: Outcome): string
    requires Possible(o)
  {
    FieldOf(f, ip, timestamp, StepsOf(o.outs), ErrorText(o))
  }

  function FieldOf(f: Field, ip: string, timestamp: string, st: Steps, error: string): string {
    match f
    case Ip => ip
    case Model => st.model
    case SerialNumber => st.serial
    case HaSummary => st.ha
    case WirelessState => st.wireless
    case MobilitySummary => st.mobility
    case MobilityAnchor => st.anchor
    case Timestamp => timestamp
    case Error => error
  }

  /** The result record of `analyze_wlc`, in `csv_fields` order. */
  function WlcResult(ip: string, timestamp: string, o: Outcome): map<Field, string>
    requires Possible(o)
  {
    RecordOf(ip, timestamp, StepsOf(o.outs), ErrorText(o))
  }

  function RecordOf(ip: string, timestamp: string, st: Steps, error: string): map<Field, string> {
    map[Ip := ip, Model := st.model, SerialNumber := st.serial, HaSummary := st.ha,
      WirelessState := st.wireless, MobilitySummary := st.mobility, MobilityAnchor := st.anchor,
      Timestamp := timestamp, Error := error]
  }

  /** The record has every field, each with its value. */
  lemma WlcResultFields(ip: string, timestamp: string, o: Outcome)
    requires Possible(o)
    ensures forall f: Field :: f in WlcResult(ip, timestamp, o) && WlcResult(ip, timestamp, o)[f] == FieldValue(f, ip, timestamp, o)
  {
    RecordFields(ip, timestamp, StepsOf(o.outs), ErrorText(o));
  }

  lemma RecordFields(ip: string, timestamp: string, st: Steps, error: string)
    ensures forall f: Field ::
      f in RecordOf(ip, timestamp, st, error) && RecordOf(ip, timestamp, st, error)[f] == FieldOf(f, ip, timestamp, st, error)
  {
    var r := RecordOf(ip, timestamp, st, error);
    forall f: Field ensures f in r && r[f] == FieldOf(f, ip, timestamp, st, error) {
      match f
      case Ip =>
      case Model =>
      case SerialNumber =>
      case HaSummary =>
      case WirelessState =>
      case MobilitySummary =>
      case MobilityAnchor =>
      case Timestamp =>
      case Error =>
    }
  }

  /** The `try` block of `analyze_wlc`: each step runs only when the ones before it did not
      raise, and a field whose step did not run keeps its default `""`. */
  method RunSteps(o: Outcome) returns (model: string, serial: string, ha: string, wireless: string,
      mobility: string, anchor: string)
    ensures Steps(model, serial, ha, wireless, mobility, anchor) == StepsOf(o.outs)
  {
    model, serial, ha, wireless, mobility, anchor := "", "", "", "", "", "";
    var outs := o.outs;
    if |outs| >= 1 {
      var m := Search(outs[0], LabelAt("Model Number"));
      model := if m.Some? then m.value else "Unknown";
      var sn := Search(outs[0], LabelAt("System Serial Number"));
      serial := if sn.Some? then sn.value else "Unknown";
      if |outs| >= 2 {
        ha := Strip(outs[1]);
        if |outs| >= 3 {
          wireless := Strip(outs[2]);
          if |outs| >= 4 {
            mobility := Strip(outs[3]);
            if |outs| >= 5 {
              anchor := Strip(outs[4]);
            }
          }
        }
      }
    }
  }

  /** `analyze_wlc`: the defaults first, then each field as its step completes, then the
      exception's text. */
  method AnalyzeWlc(ip: string, timestamp: string, o: Outcome) returns (result: map<Field, string>)
    requires Possible(o)
    ensures result == WlcResult(ip, timestamp, o)
  {
    var model, serial, ha, wireless, mobility, anchor := RunSteps(o);
    var error := "";
    if o.err.Some? {
      error := o.err.value;
    }
    result := map[Ip := ip, Model := model, SerialNumber := serial, HaSummary := ha,
      WirelessState := wireless, MobilitySummary := mobility, MobilityAnchor := anchor,
      Timestamp := timestamp, Error := error];
  }

  /** Fields filled before an exception are kept by a session that got further. */
  lemma ResultKeepsFilled(ip: string, timestamp: string, o: Outcome, more: seq<string>, e: Option<string>)
    requires Possible(o) && Possible(Outcome(o.outs + more, e)) && more != []
    ensures forall f :: f != Error && FieldValue(f, ip, timestamp, o) != "" ==>
      FieldValue(f, ip, timestamp, Outcome(o.outs + more, e)) == FieldValue(f, ip, timestamp, o)
  {
    var o2 := Outcome(o.outs + more, e);
    StepsKeepFilled(o.outs, more);
    forall f | f != Error && FieldValue(f, ip, timestamp, o) != ""
      ensures FieldValue(f, ip, timestamp, o2) == FieldValue(f, ip, timestamp, o)
    {
      FieldKept(f, ip, timestamp, StepsOf(o.outs), StepsOf(o2.outs), ErrorText(o), ErrorText(o2));
    }
  }

  lemma FieldKept(f: Field, ip: string, timestamp: string, st: Steps, st2: Steps, error: string, error2: string)
    requires f != Error
    requires (st.model != "" ==> st2.model == st.model) && (st.serial != "" ==> st2.serial == st.serial)
    requires (st.ha != "" ==> st2.ha == st.ha) && (st.wireless != "" ==> st2.wireless == st.wireless)
    requires (st.mobility != "" ==> st2.mobility == st.mobility) && (st.anchor != "" ==> st2.anchor == st.anchor)
    ensures FieldOf(f, ip, timestamp, st, error) != "" ==>
      FieldOf(f, ip, timestamp, st2, error2) == FieldOf(f, ip, timestamp, st, error)
  {
  }

  /** A step that ran reads the same output however many outputs follow. */
  lemma StepsKeepFilled(outs: seq<string>, more: seq<string>)
    ensures var st, st2 := StepsOf(outs), StepsOf(outs + more);
      && (st.model != "" ==> st2.model == st.model) && (st.serial != "" ==> st2.serial == st.serial)
      && (st.ha != "" ==> st2.ha == st.ha) && (st.wireless != "" ==> st2.wireless == st.wireless)
      && (st.mobility != "" ==> st2.mobility == st.mobility) && (st.anchor != "" ==> st2.anchor == st.anchor)
  {
    assert forall k :: 0 <= k < |outs| ==> (outs + more)[k] == outs[k];
  }

  /** The record for a host whose analysis itself raised. */
  function FailedResult(ip: string, msg: string): (r: map<Field, string>)
    ensures r.Keys == {Ip, Error} && r[Ip] == ip && r[Error] == msg
  {
    map[Ip := ip, Error := msg]
  }

  // ---------------------------------------------------------------- the output file

  /** A row with every output field: missing ones added as `""`, present ones unchanged. */
  function Completed(row: map<Field, string>): (r: map<Field, string>)
    ensures forall f: Field :: f in r
    ensures forall f :: f in row ==> r[f] == row[f]
    ensures forall f :: f !in row ==> r[f] == ""
  {
    CsvFieldsAll();
    map f: Field | f in CsvFields :: if f in row then row[f] else ""
  }

  /** Completing a full result changes nothing. */
  lemma CompletedResult(ip: string, timestamp: string, o: Outcome)
    requires Possible(o)
    ensures Completed(WlcResult(ip, timestamp, o)) == WlcResult(ip, timestamp, o)
  {
    var r := WlcResult(ip, timestamp, o);
    WlcResultFields(ip, timestamp, o);
    assert Completed(r).Keys == r.Keys;
  }

  /** `for field in csv_fields: if field not in row: row[field] = ""`. */
  method CompleteRow(row: map<Field, string>) returns (r: map<Field, string>)
    ensures r == Completed(row)
  {
    r := row;
    for i := 0 to |CsvFields|
      invariant r.Keys == row.Keys + FieldsBefore(i)
      invariant forall f :: f in row ==> r[f] == row[f]
      invariant forall f :: f in r && f !in row ==> r[f] == ""
    {
      FieldsBeforeStep(i);
      if CsvFields[i] !in r {
        r := r[CsvFields[i] := ""];
      }
    }
    FieldsBeforeAll();
    assert r.Keys == Completed(row).Keys;
  }

  /** The fields the completion loop has visited after `i` rounds. */
  function FieldsBefore(i: nat): set<Field>
    requires i <= |CsvFields|
  {
    set f | f in CsvFields[..i]
  }

  lemma FieldsBeforeStep(i: nat)
    requires i < |CsvFields|
    ensures FieldsBefore(i + 1) == FieldsBefore(i) + {CsvFields[i]}
  {
    assert CsvFields[..i + 1] == CsvFields[..i] + [CsvFields[i]];
  }

  lemma FieldsBeforeAll()
    ensures forall f: Field :: f in FieldsBefore(|CsvFields|)
  {
    assert CsvFields[..|CsvFields|] == CsvFields;
    CsvFieldsAll();
  }

  /** The row completion over all results, in order. */
  method CompleteRows(results: seq<map<Field, string>>) returns (rows: seq<map<Field, string>>)
    ensures |rows| == |results| && forall i :: 0 <= i < |rows| ==> rows[i] == Completed(results[i])
  {
    rows := [];
    for i := 0 to |results|
      invariant |rows| == i && forall j :: 0 <= j < i ==> rows[j] == Completed(results[j])
    {
      var r := CompleteRow(results[i]);
      rows := rows + [r];
    }
  }
}
