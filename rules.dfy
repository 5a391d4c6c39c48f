/** The small decision tables the scripts share: which vendor a login banner belongs to, which
    suffix the hourly inventory file gets, and when a JunOS commit counts as done. */
module Rules {
  import opened Text

  // ---------------------------------------------------------------- vendor detection

  datatype Vendor = Juniper | Cisco | Unknown

  /** The banner names JunOS or Juniper (after lower-casing). */
  predicate MentionsJuniper(banner: string) {
    Contains(Lower(banner), "junos") || Contains(Lower(banner), "juniper")
  }

  /** The banner names IOS or Cisco (after lower-casing). */
  predicate MentionsCisco(banner: string) {
    Contains(Lower(banner), "ios") || Contains(Lower(banner), "cisco")
  }

  /** The `is_juniper` / `is_cisco` flags: the Juniper test runs first and the Cisco test only
      in its `elif`, which also looks for `ios-xe`. */
  function DetectVendor(banner: string): (v: Vendor)
    ensures v == Juniper <==> MentionsJuniper(banner)
    ensures v == Cisco <==> !MentionsJuniper(banner) && MentionsCisco(banner)
    ensures v == Unknown <==> !MentionsJuniper(banner) && !MentionsCisco(banner)
  {
    var low := Lower(banner);
    if Contains(low, "junos") || Contains(low, "juniper") then Juniper
    else if Contains(low, "ios") || Contains(low, "cisco") || Contains(low, "ios-xe") then
      assert Contains(low, "ios-xe") ==> Contains(low, "ios") by {
        if Contains(low, "ios-xe") { IosXeNamesIos(low); }
      }
      Cisco
    else Unknown
  }

  /** `ios-xe` adds nothing to the Cisco test: any text containing it contains `ios`. */
  lemma IosXeNamesIos(low: string)
    requires Contains(low, "ios-xe")
    ensures Contains(low, "ios")
  {
    assert "ios-xe" == "ios" + "-xe";
    ContainsInner(low, "ios", "-xe");
  }

  /** A banner that names both vendors is taken for Juniper. */
  lemma JuniperWins(a: string, b: string)
    ensures DetectVendor(a + "Juniper" + b) == Juniper
    ensures DetectVendor(a + "Cisco IOS-XE " + "JUNOS" + b) == Juniper
  {
    LowerAppend(a + "Juniper", b);
    LowerAppend(a, "Juniper");
    ContainsAt(Lower(a) + Lower("Juniper"), "juniper", |a|);
    ContainsPrefix(Lower(a) + Lower("Juniper"), Lower(b), "juniper");
    var t := a + "Cisco IOS-XE " + "JUNOS";
    LowerAppend(t, b);
    LowerAppend(a + "Cisco IOS-XE ", "JUNOS");
    ContainsAt(Lower(a + "Cisco IOS-XE ") + Lower("JUNOS"), "junos", |a + "Cisco IOS-XE "|);
    ContainsPrefix(Lower(t), Lower(b), "junos");
  }

  // ---------------------------------------------------------------- output file suffix

  /** The suffix of the interface-and-MAC file written at `hour`: the two baseline runs, the
      four daytime runs, and any other run. */
  function HourSuffix(hour: int): (suffix: string)
    ensures suffix == "_LON.BASE.csv" <==> hour == 0 || hour == 20
    ensures suffix == "_LON.DAYTIME.csv" <==> hour == 5 || hour == 9 || hour == 10 || hour == 14
    ensures suffix == "_LON.csv" <==> hour !in {0, 20, 5, 9, 10, 14}
    ensures StartsWith(suffix, "_LON") && EndsWith(suffix, ".csv")
  {
    if hour in {0, 20} then "_LON.BASE.csv"
    else if hour in {5, 9, 10, 14} then "_LON.DAYTIME.csv"
    else "_LON.csv"
  }

  // ---------------------------------------------------------------- commit outcome

  /** The JunOS commit worked: the lower-cased output of the commit wait mentions
      `commit complete`. */
  predicate CommitSucceeded(output: string) {
    Contains(Lower(output), "commit complete")
  }

  /** Whatever came before or after it, output that shows `commit complete` in one chunk is a
      success, in any letter case. */
  lemma CommitInChunk(before: string, chunk: string, after: string)
    requires Contains(Lower(chunk), "commit complete")
    ensures CommitSucceeded(before + chunk + after)
  {
    LowerAppend(before + chunk, after);
    LowerAppend(before, chunk);
    ContainsSuffix(Lower(before), Lower(chunk), "commit complete");
    ContainsPrefix(Lower(before) + Lower(chunk), Lower(after), "commit complete");
  }

  /** An empty wait (no chunk could be read) is never a success. */
  lemma NoOutputNoCommit()
    ensures !CommitSucceeded("")
  {
    ShortNotContains(Lower(""), "commit complete");
  }
}
