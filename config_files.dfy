/** The plain-text inputs every script reads before connecting: a `key=value` credentials text
    (the decrypted file), a `user,password` line, and host lists in their several layouts. */
module ConfigFiles {
  import opened Wrappers
  import opened Text
  import opened Folds

  // ---------------------------------------------------------------- key=value credentials

  /** One credentials line: blank lines, `#` comments and lines without `=` give nothing; any
      other line is split at its first `=` into a stripped key (lower-cased when `lowerKey`) and
      a stripped value. */
  function KeyValue(line: string, lowerKey: bool): (r: Option<(string, string)>)
    ensures r.Some? <==> Strip(line) != [] && Strip(line)[0] != '#' && '=' in Strip(line)
    ensures r.Some? ==> '=' !in r.value.0
  {
    var l := Strip(line);
    if l == [] || l[0] == '#' || '=' !in l then None
    else
      var i := IndexOf(l, '=');
      var k := Strip(l[..i]);
      assert '=' !in k by {
        if '=' in k { StripInside(l[..i], '='); }
      }
      var key := if lowerKey then Lower(k) else k;
      assert forall j :: 0 <= j < |key| ==> key[j] != '=';
      Some((key, Strip(l[i + 1..])))
  }

  /** The padded assignment, stripped: the key, its padding, `=`, and the padded value, or
      nothing after `=` when the value is empty. */
  lemma StripAssignment(a: string, k: string, b: string, c: string, v: string, d: string)
    requires AllSpace(a) && AllSpace(b) && AllSpace(c) && AllSpace(d)
    requires k != [] && !IsSpace(k[0])
    requires v == [] || (!IsSpace(v[0]) && !IsSpace(v[|v| - 1]))
    ensures Strip(a + k + b + "=" + c + v + d) == k + b + "=" + (if v == [] then [] else c + v)
  {
    var value := if v == [] then [] else c + v;
    var l := k + b + "=" + value;
    var t := if v == [] then c + d else d;
    assert a + k + b + "=" + c + v + d == a + l + t;
    assert l[0] == k[0];
    assert l[|l| - 1] == if v == [] then '=' else v[|v| - 1];
    StripPadded(a, l, t);
  }

  /** An assignment `key = value`, with any whitespace around the key, the `=` and the value,
      reads back as its key (lower-cased when `lowerKey`) and its value. */
  lemma KeyValueOfAssignment(a: string, k: string, b: string, c: string, v: string, d: string, lowerKey: bool)
    requires AllSpace(a) && AllSpace(b) && AllSpace(c) && AllSpace(d)
    requires k != [] && '=' !in k && k[0] != '#' && !IsSpace(k[0]) && !IsSpace(k[|k| - 1])
    requires v == [] || (!IsSpace(v[0]) && !IsSpace(v[|v| - 1]))
    ensures KeyValue(a + k + b + "=" + c + v + d, lowerKey) == Some((if lowerKey then Lower(k) else k, v))
  {
    var value := if v == [] then [] else c + v;
    var kb := k + b;
    var l := kb + "=" + value;
    StripAssignment(a, k, b, c, v, d);
    assert l[..|kb|] == kb && l[|kb|] == '=' && l[|kb| + 1..] == value;
    assert '=' !in kb;
    assert IndexOf(l, '=') == |kb|;
    assert kb[0] == k[0];
    LStripOfStripped(kb);
    RStripPadded(k, b);
    if v == [] {
      assert Strip(value) == [];
    } else {
      StripPadded(c, v, []);
      assert c + v + [] == value;
    }
  }

  /** The credentials loop body as a function of the line. */
  function CredLine(lowerKey: bool): string -> Option<(string, string)> {
    (l: string) => KeyValue(l, lowerKey)
  }

  /** The dictionary the credentials loop leaves. */
  function Creds(lines: seq<string>, lowerKey: bool): map<string, string> {
    FoldMap(lines, CredLine(lowerKey))
  }

  /** Line `i` assigns key `k`. */
  predicate Assigns(lines: seq<string>, lowerKey: bool, i: int, k: string) {
    0 <= i < |lines| && Writes(CredLine(lowerKey), lines[i], k)
  }

  /** A key is present exactly when some line assigns it, and it holds the value of the last
      such line. */
  lemma CredsLookup(lines: seq<string>, lowerKey: bool, k: string)
    ensures k in Creds(lines, lowerKey) <==> exists i :: Assigns(lines, lowerKey, i, k)
    ensures k in Creds(lines, lowerKey) ==> exists i :: (Assigns(lines, lowerKey, i, k)
      && Creds(lines, lowerKey)[k] == KeyValue(lines[i], lowerKey).value.1
      && forall j :: i < j < |lines| ==> !Assigns(lines, lowerKey, j, k))
  {
    var f := CredLine(lowerKey);
    FoldMapLookup(lines, f, k);
    if k in Creds(lines, lowerKey) {
      var i :| 0 <= i < |lines| && Writes(f, lines[i], k) && FoldMap(lines, f)[k] == f(lines[i]).value.1
        && forall j :: i < j < |lines| ==> !Writes(f, lines[j], k);
      assert f(lines[i]) == KeyValue(lines[i], lowerKey);
      assert Assigns(lines, lowerKey, i, k);
    }
  }

  /** The `for line in decrypted.splitlines()` loop. */
  method LoadCreds(text: string, lowerKey: bool) returns (creds: map<string, string>)
    ensures creds == Creds(SplitLines(text), lowerKey)
  {
    creds := FillMap(SplitLines(text), CredLine(lowerKey));
  }

  /** The required-keys check: both keys present, or the first missing one is reported. */
  function RequireKeys(creds: map<string, string>, userKey: string, passKey: string): (r: Result<(string, string)>)
    ensures r.Ok? <==> userKey in creds && passKey in creds
    ensures r.Ok? ==> r.value == (creds[userKey], creds[passKey])
    ensures r.Err? ==> r.msg == "Missing '" + (if userKey !in creds then userKey else passKey) + "'"
  {
    if userKey !in creds then Err("Missing '" + userKey + "'")
    else if passKey !in creds then Err("Missing '" + passKey + "'")
    else Ok((creds[userKey], creds[passKey]))
  }

  /** The script goes on exactly when some line assigns each required key. */
  lemma RequireKeysOfText(lines: seq<string>, userKey: string, passKey: string)
    ensures RequireKeys(Creds(lines, false), userKey, passKey).Ok? <==>
      (exists i :: Assigns(lines, false, i, userKey)) && (exists i :: Assigns(lines, false, i, passKey))
  {
    CredsLookup(lines, false, userKey);
    CredsLookup(lines, false, passKey);
  }

  /** The WLC scripts: `creds.get("user") or creds.get("username")` and `creds.get("password")`,
      raising when either is missing or empty. */
  function WlcLogin(creds: map<string, string>): (r: Result<(string, string)>)
    ensures r.Ok? <==>
      && (("user" in creds && creds["user"] != "") || ("username" in creds && creds["username"] != ""))
      && "password" in creds && creds["password"] != ""
    ensures r.Ok? ==> r.value.1 == creds["password"] && r.value.0 != ""
    ensures r.Ok? && "user" in creds && creds["user"] != "" ==> r.value.0 == creds["user"]
    ensures r.Ok? && !("user" in creds && creds["user"] != "") ==> r.value.0 == creds["username"]
  {
    var user := if "user" in creds && creds["user"] != "" then creds["user"]
                else if "username" in creds then creds["username"] else "";
    var password := if "password" in creds then creds["password"] else "";
    if user == "" || password == "" then Err("Missing username or password in decrypted credentials.")
    else Ok((user, password))
  }

  // ---------------------------------------------------------------- user,password credentials

  /** The non-blank pieces of the text between newlines. */
  function NonBlankLines(text: string): (r: seq<string>)
    ensures forall i :: 0 <= i < |r| ==> Strip(r[i]) != [] && '\n' !in r[i]
  {
    var pieces := SplitOn(Strip(text), '\n');
    var keep := (l: string) => if Strip(l) != [] then Some(l) else None;
    var r := FilterMap(pieces, keep);
    forall i | 0 <= i < |r| ensures Strip(r[i]) != [] && '\n' !in r[i] {
      FilterMapMember(pieces, keep, r[i]);
    }
    r
  }

  /** The Avocent credentials: the first non-blank line, stripped, must be exactly two
      comma-separated fields. */
  function AvocentCreds(text: string): (r: Result<(string, string)>)
    ensures r.Ok? ==> ',' !in r.value.0 && ',' !in r.value.1
    ensures NonBlankLines(text) == [] ==> r == Err("No credentials found in decrypted file")
    ensures NonBlankLines(text) != [] ==>
      (r.Ok? <==> |SplitOn(Strip(NonBlankLines(text)[0]), ',')| == 2)
  {
    var lines := NonBlankLines(text);
    if lines == [] then Err("No credentials found in decrypted file")
    else
      var parts := SplitOn(Strip(lines[0]), ',');
      if |parts| == 2 then Ok((parts[0], parts[1]))
      else Err("Credentials file must contain username,password")
  }

  lemma SplitOnPair(u: string, p: string, c: char)
    requires c !in u && c !in p
    ensures SplitOn(u + [c] + p, c) == [u, p]
  {
    var s := u + [c] + p;
    IndexOfAfter(u, c, p);
    assert s[..|u|] == u && s[|u| + 1..] == p;
  }

  /** A one-line `user,password` file reads back as its two fields. */
  lemma AvocentCredsOfLine(u: string, p: string)
    requires ',' !in u && ',' !in p && '\n' !in u && '\n' !in p
    requires u != [] && !IsSpace(u[0]) && p != [] && !IsSpace(p[|p| - 1])
    ensures AvocentCreds(u + "," + p) == Ok((u, p))
  {
    var line := u + "," + p;
    assert line == u + [','] + p;
    assert line[0] == u[0] && line[|line| - 1] == p[|p| - 1];
    StripOfStripped(line);
    assert '\n' !in line;
    assert SplitOn(line, '\n') == [line];
    var keep := (l: string) => if Strip(l) != [] then Some(l) else None;
    assert FilterMap([line], keep) == [line] by {
      assert [line][..0] == [];
    }
    SplitOnPair(u, p, ',');
  }

  // ---------------------------------------------------------------- host lists

  /** One line of a `name ip` / `ip` hosts file, as the pair `(ip, name)`; blank lines, and
      `#` lines when `skipComments`, give nothing; tokens after the second are ignored. */
  function HostLine(line: string, skipComments: bool): (r: Option<(string, string)>)
    ensures r.Some? <==> Strip(line) != [] && !(skipComments && Strip(line)[0] == '#')
    ensures r.Some? ==> IsWord(r.value.0) && IsWord(r.value.1)
  {
    var t := Strip(line);
    if t == [] || (skipComments && t[0] == '#') then None
    else
      TokensNonEmpty(t);
      var parts := Tokens(t);
      if |parts| >= 2 then Some((parts[1], parts[0])) else Some((parts[0], parts[0]))
  }

  /** `name ip` gives `(ip, name)`. */
  lemma HostLineOfPair(name: string, ip: string, skipComments: bool)
    requires IsWord(name) && IsWord(ip) && name[0] != '#'
    ensures HostLine(name + " " + ip, skipComments) == Some((ip, name))
  {
    var line := name + " " + ip;
    assert line[0] == name[0] && line[|line| - 1] == ip[|ip| - 1];
    StripOfStripped(line);
    TokensOfJoin(name, ip);
    TokensOfWord(ip);
  }

  /** Tokens after the second are ignored. */
  lemma HostLineOfTriple(name: string, ip: string, extra: string, skipComments: bool)
    requires IsWord(name) && IsWord(ip) && IsWord(extra) && name[0] != '#'
    ensures HostLine(name + " " + ip + " " + extra, skipComments) == Some((ip, name))
  {
    var line := name + " " + (ip + " " + extra);
    assert name + " " + ip + " " + extra == line;
    TripleTokens(name, ip, extra);
    HostLineOfTokens(line, skipComments);
  }

  lemma TripleTokens(name: string, ip: string, extra: string)
    requires IsWord(name) && IsWord(ip) && IsWord(extra)
    ensures var line := name + " " + (ip + " " + extra);
      Strip(line) == line && Tokens(line) == [name, ip, extra]
  {
    var tail := ip + " " + extra;
    var line := name + " " + tail;
    assert line[0] == name[0] && line[|line| - 1] == extra[|extra| - 1];
    StripOfStripped(line);
    TokensOfJoin(ip, extra);
    TokensOfWord(extra);
    TokensOfJoin(name, tail);
  }

  /** A stripped line of at least two tokens names its host by the first and reaches it at
      the second. */
  lemma HostLineOfTokens(line: string, skipComments: bool)
    requires Strip(line) == line && line != [] && line[0] != '#' && |Tokens(line)| >= 2
    ensures HostLine(line, skipComments) == Some((Tokens(line)[1], Tokens(line)[0]))
  {
  }

  /** A lone address is its own name. */
  lemma HostLineOfAddress(ip: string, skipComments: bool)
    requires IsWord(ip) && ip[0] != '#'
    ensures HostLine(ip, skipComments) == Some((ip, ip))
  {
    StripOfStripped(ip);
    TokensOfWord(ip);
  }

  /** The hosts loops: one `(ip, name)` per host line, in file order. */
  method ReadHosts(lines: seq<string>, skipComments: bool) returns (hosts: seq<(string, string)>)
    ensures hosts == FilterMap(lines, (l: string) => HostLine(l, skipComments))
    ensures forall i :: 0 <= i < |hosts| ==> IsWord(hosts[i].0) && IsWord(hosts[i].1)
  {
    var f := (l: string) => HostLine(l, skipComments);
    hosts := Collect(lines, f);
    forall i | 0 <= i < |hosts| ensures IsWord(hosts[i].0) && IsWord(hosts[i].1) {
      FilterMapMember(lines, f, hosts[i]);
    }
  }

  /** `[line.strip() for line in f if line.strip()]`. */
  function StrippedLines(lines: seq<string>): (r: seq<string>)
    ensures forall i :: 0 <= i < |r| ==> r[i] != [] && Strip(r[i]) == r[i]
    ensures forall x :: x in r <==> exists i :: 0 <= i < |lines| && Strip(lines[i]) != [] && Strip(lines[i]) == x
  {
    var f := (l: string) => if Strip(l) != [] then Some(Strip(l)) else None;
    var r := FilterMap(lines, f);
    forall x ensures x in r <==> exists i :: 0 <= i < |lines| && Strip(lines[i]) != [] && Strip(lines[i]) == x {
      FilterMapMember(lines, f, x);
    }
    forall i | 0 <= i < |r| ensures r[i] != [] && Strip(r[i]) == r[i] {
      FilterMapMember(lines, f, r[i]);
      var j :| 0 <= j < |lines| && Strip(lines[j]) != [] && Strip(lines[j]) == r[i];
      StripOfStripped(Strip(lines[j]));
    }
    r
  }

  /** One line of the Avocent hosts file: `(name, address)` with any `/mask` removed, for lines
      with at least two tokens. */
  function AvocentHostLine(line: string): (r: Option<(string, string)>)
    ensures r.Some? <==> |Tokens(Strip(line))| >= 2
    ensures r.Some? ==> IsWord(r.value.0) && '/' !in r.value.1
  {
    var parts := Tokens(Strip(line));
    if |parts| >= 2 then Some((parts[0], BeforeChar(parts[1], '/'))) else None
  }

  lemma AvocentHostLineOfMasked(name: string, ip: string, mask: string)
    requires IsWord(name) && IsWord(ip) && '/' !in ip && NoSpace(mask)
    ensures AvocentHostLine(name + " " + ip + "/" + mask) == Some((name, ip))
  {
    var w := ip + "/" + mask;
    MaskedWord(ip, mask);
    var line := name + " " + w;
    assert name + " " + ip + "/" + mask == line;
    assert line[0] == name[0] && line[|line| - 1] == w[|w| - 1];
    StripOfStripped(line);
    TokensOfJoin(name, w);
    TokensOfWord(w);
    BeforeMask(ip, mask);
  }

  /** The address part of `ip/mask`. */
  lemma BeforeMask(ip: string, mask: string)
    requires '/' !in ip
    ensures BeforeChar(ip + "/" + mask, '/') == ip
  {
    IndexOfAfter(ip, '/', mask);
    assert (ip + "/" + mask)[..|ip|] == ip;
  }

  /** An address with its mask is still one word. */
  lemma MaskedWord(ip: string, mask: string)
    requires IsWord(ip) && NoSpace(mask)
    ensures IsWord(ip + "/" + mask)
  {
    var w := ip + "/" + mask;
    assert forall j :: 0 <= j < |w| ==> !IsSpace(w[j]) by {
      forall j | 0 <= j < |w| ensures !IsSpace(w[j]) {
        if j < |ip| { assert w[j] == ip[j]; }
        else if j > |ip| { assert w[j] == mask[j - |ip| - 1]; }
      }
    }
  }

  /** `get_hosts` of the Avocent script. */
  method AvocentHosts(text: string) returns (hosts: seq<(string, string)>)
    ensures hosts == FilterMap(FileLines(text), AvocentHostLine)
  {
    hosts := Collect(FileLines(text), AvocentHostLine);
  }

  /** One line of a WLC hosts file: the second token of a line with exactly two tokens. */
  function WlcHostLine(line: string): (r: Option<string>)
    ensures r.Some? <==> |Tokens(Strip(line))| == 2
    ensures r.Some? ==> r.value == Tokens(Strip(line))[1] && IsWord(r.value)
  {
    var parts := Tokens(Strip(line));
    if |parts| == 2 then Some(parts[1]) else None
  }

  /** The hosts loop of the WLC scripts. */
  method WlcHosts(text: string) returns (hosts: seq<string>)
    ensures hosts == FilterMap(FileLines(text), WlcHostLine)
  {
    hosts := Collect(FileLines(text), WlcHostLine);
  }
}
