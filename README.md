# Network-operator SSH scripts, modelled in Dafny

The repository is a set of Python scripts that a network team runs against switches, routers,
console servers and wireless controllers. Each script reads a decrypted credentials text and a
hosts file. It then opens an interactive shell per host, sends a few commands, and reads the
answer in a bounded polling loop that answers `--More--` pagers and stops at a prompt. It
scrapes the output into rows and writes a CSV or text report. The London scripts add offline
processing of those reports: MAC-address normalisation, comparison against a baseline, and
deduplicated merging. Route scripts scrape `show route all` and compare it with a table of
site subnets.

This project models the parsing, polling and bookkeeping logic of those scripts, and proves
what the scripts promise about it:

- **Polling loop.** Output is the concatenation of the chunks read. The loop stops on the
  first prompt chunk, sends one pager reply per paging chunk, and stops softly on a read error.
- **Config and hosts files.** The last assignment of a key wins, required keys are checked,
  and host lines map to `(ip, name)`.
- **Vendor detection.** It is exclusive, and Juniper wins.
- **Screen scraping.** Interface lines and header-column slices are parsed, a later row for
  the same interface overwrites an earlier one, and the MAC table is joined with the
  interface map.
- **MAC tools.** Normalisation is idempotent and lower-hex. A row is in the diff exactly when
  its MAC is absent from the baseline union. The merge keeps the first occurrence of each
  MAC, and its MACs are pairwise distinct. A row the CSV writer refuses (cells past the
  header, or a key outside the merged header) raises, and the model says which rows reached
  the file before it.
- **Route and subnet comparison.** Exact matches come before the last enclosing network, and
  printed networks parse back.
- **JunOS banner.** Escaping is decoded back to the banner exactly, and the commit-success
  rule is modelled.
- **Avocent serial lookup.** The regex and split branches of the lookup agree.
- **WLC scripts.** Result records and the completion of CSV rows are modelled.

Modules follow the program's structure:

| Module | File | Contents |
|---|---|---|
| `Wrappers` | `wrappers.dfy` | `Option` and `Result` |
| `Text` | `text.dfy` | Python `str` builtins |
| `Folds` | `folds.dfy` | the dictionary-fill, list-append, set-add and count loops every script repeats |
| `Tables` | `tables.dfy` | `csv.DictReader` and site tables |
| `Shell` | `shell.dfy` | the channel: a `class` with `pending`, `sent` and `open` fields, plus the `Poll` specification and the `PollShell` loop |
| `Rules` | `rules.dfy` | vendor, file suffix and commit outcome |
| `ConfigFiles` | `config_files.dfy` | credentials and hosts files |
| `Interfaces` | `interfaces.dfy` | screen scraping |
| `InventorySessions` | `inventory_sessions.dfy` | the three interface-listing scripts' host sessions and batches |
| `MacInventory` | `mac_inventory.dfy` | the three MAC CSV tools |
| `Routes` | `routes.dfy` | route scraping and exact comparison |
| `Ipv4` | `ipv4.dfy` | IPv4 networks as `ipaddress` builds them |
| `SubnetCompare` | `subnets.dfy` | subnet classification |
| `JunosBanner` | `junos_banner.dfy` | the banner update |
| `DhcpSessions` | `dhcp_sessions.dfy` | the DHCP show, pool and clear scripts |
| `AvocentSerials` | `serials.dfy` | the serial-number lookup |
| `Wlc` | `wlc.dfy` | the two WLC verification scripts |

The device side of a session is a parameter. A channel is created from a fixed script of
readings, each either a decoded chunk or `Fail` (a socket timeout, a decode error or any other
exception of `recv`). Reading past the end of the script gives `Fail`, as the two-second
socket timeout does. Whether `connect` and `invoke_shell` succeed is a boolean per host.
Write errors, the hour of the clock, dry-run flags and `str(e)` of an exception are also
parameters. Files are sequences of rows (CSV) or lines (text).

The London MAC tools share one set of definitions: `merge_compare_mac.py`,
`compare_mac_baseline.py` and `merge_unique_diff_macs.py` copy `normalize_mac`,
`find_mac_field`, `load_macs_from_csv`, `compare_file` and `merge_files` from one another.
The polling loops, credentials loops and hosts loops of the SSH scripts share definitions in
the same way. What differs between the scripts is passed as a parameter: the loop bound, the
prompt test, whether pagers are answered, whether `#` lines are skipped, and which line
filter is used.

## Model

| member | source | states |
|---|---|---|
| Folds.LastWriter | london/sh_int_and_sh_mac.py:33-40 | the index of the last credentials line that writes a key, no later line writing it; -1 when none does |
| Folds.FoldMapLastWins | london/sh_int_and_sh_mac.py:33-40 | a dictionary filled by `d[k] = v` over the lines has a key exactly when some line writes it, and holds the value of the last such line |
| Folds.FoldMapLookup | python-scripts/sh_int_desc.py:28-42 | corollary of `FoldMapLastWins` in the form callers use: the same, with the writing line named by its index: present iff some line writes the key, and the stored value is written by a line with no later writer |
| Folds.FoldMapWins | london/sh_int_and_sh_mac.py:234-255 | corollary of `FoldMapLastWins` in the form callers use: the interface dictionary keyed by name keeps, per interface, the row of the last line that writes it |
| Folds.FillMap | london/sh_int_and_sh_mac.py:33-40 | the loop that assigns `d[k] = v` line by line leaves exactly the last-writer-wins dictionary |
| Folds.FilterMapAppend | london/sh_int_and_sh_mac.py:61-74 | a list built by `append` over a concatenation is the concatenation of the lists: input order is kept |
| Folds.FilterMapCons | python-scripts/sh_int_desc.py:50-63 | the first element contributes what it yields, in front of what the rest yields |
| Folds.FilterMapLength | python-scripts/juniper_interfaces_status.py:114-125 | at most one output per input line |
| Folds.FilterMapMember | python-scripts/juniper_interfaces_status.py:114-125 | a value is in the list exactly when some input line yields it |
| Folds.Collect | london/sh_int_and_sh_mac.py:61-74 | the append loop builds exactly the filtered and mapped list |
| Folds.FilterSetMember | london/compare_mac_baseline.py:54-58 | a set built by `add` holds a value exactly when some row yields it |
| Folds.UnionOfMember | london/compare_mac_baseline.py:114-118 | a set built by `update` over the files holds a value exactly when some file's set does |
| Folds.FlatMapMember | python-scripts/route_compare.py:14-21 | a list built by extending per row holds a value exactly when some row contributes it |
| Folds.FlatMapAppend | london/sh_int_and_sh_mac.py:103-351 | the rows of the hosts before and after a point are collected independently and in host order |
| Folds.FirstIndex | london/sh_int_and_sh_mac.py:214-219 | the `enumerate`/`break` search returns the first index satisfying the test, none before it; -1 exactly when no element does |
| Folds.FirstIndexAt | london/sh_int_and_sh_mac.py:214-219 | a scan that breaks at the first hit returns that index |
| Folds.LastIndex | python-scripts/juniper_route_compare_subnet.py:104-111 | the index of the last element satisfying the test, none after it; -1 exactly when no element does |
| Folds.Count | python-scripts/sh_run_sec_dhcp.py:116-121 | the success count is at most the number of hosts |
| Folds.CountAppend | python-scripts/banner.py:166-170 | the counts of two stretches of hosts add up |
| Folds.CountAll | python-scripts/banner.py:166-170 | when every result is True the count equals the number of hosts |
| Folds.CountWhere | python-scripts/sh_run_sec_dhcp.py:116-120 | the loop `if ok: success += 1` returns the number of True results |
| Tables.FieldNames | london/merge_compare_mac.py:40-41 | `reader.fieldnames` is the first row, and `None` exactly for an empty file |
| Tables.FieldsOrEmpty | london/merge_compare_mac.py:58 | `reader.fieldnames or []`: the first row, or empty for an empty file |
| Tables.LastColumn | london/merge_compare_mac.py:40-46 | the last header column with a given name, no later column having it; -1 exactly when no column has that name |
| Tables.RecordOf | london/merge_compare_mac.py:40-46 | a `DictReader` record has exactly the header's names as keys; the cells past the header, and only when there are any, are kept in order under the `restkey` `None` |
| Tables.RecordsMember | london/merge_compare_mac.py:63 | every record is read, under the header, from a non-blank data row |
| Tables.RecordOfCell | london/merge_compare_mac.py:40-46 | the value under a name is the cell at the last column of that name, or `None` past the row's end |
| Tables.Records | london/merge_compare_mac.py:63 | `list(reader)` has at most one record per row |
| Tables.Get | london/merge_compare_mac.py:46 | `row.get(k, '')`: the cell when the key is present, `''` otherwise |
| Tables.WriteRow | london/merge_compare_mac.py:77-80 | `writerow` accepts a record exactly when it has no cells past the header and no key outside the field names, and writes one cell per field name (`None` and absent keys as `''`); otherwise `ValueError` |
| Tables.WriteRows | london/merge_compare_mac.py:79-80 | the rows reach the file in order up to the first refused record; all of them exactly when every record is accepted, and the refused one is the record right after the written rows |
| Tables.WriteRowsAfterErr | london/merge_compare_mac.py:79-80 | after the first refused record, later records change nothing |
| Tables.WriteCsv | london/merge_compare_mac.py:76-80 | the header and then the written rows reach the file, and the loop reports whether every record was written |
| Tables.RecordOfWritable | london/merge_compare_mac.py:63-80 | a record read under a header can be written under it exactly when its row is no wider than the header |
| Tables.WriteRowOfRecord | london/merge_compare_mac.py:63-80 | under a header without repeated names, a row of the header's width is written back as it was read |
| Tables.SiteCells | python-scripts/route_compare.py:14-17 | the site-table scan succeeds exactly when no data row is blank; a blank row's `row[0]` raises `IndexError` |
| Tables.SiteCellsValue | python-scripts/route_compare.py:14-21 | without blank rows the entries are each row's entries concatenated in row order |
| Tables.RowCellsMember | python-scripts/route_compare.py:15-21 | a row contributes an entry exactly when some cell after column 0 yields it, paired with the stripped site |
| Tables.SiteCellsMember | python-scripts/route_compare.py:14-21 | an entry is produced exactly when some cell after the site column of some data row yields it |
| Tables.ScanRow | python-scripts/route_compare.py:17-21 | the inner loop over the cells returns what the cells yield, in column order |
| Tables.ScanSiteRows | python-scripts/route_compare.py:14-21 | the outer loop returns the scan's entries, or its `IndexError` |
| Text.LStrip | python-scripts/sh_int_desc.py:72-77 | `lstrip` is no longer than the text and starts with a non-space |
| Text.LStripIsSuffix | python-scripts/sh_int_desc.py:72-77 | `lstrip` removes only leading whitespace: the result is a suffix, and every character removed is whitespace |
| Text.RStrip | python-scripts/sh_int_desc.py:72-77 | `rstrip` is no longer than the text, ends with a non-space and keeps the first character |
| Text.RStripIsPrefix | python-scripts/sh_int_desc.py:72-77 | `rstrip` removes only trailing whitespace: the result is a prefix, and every character removed is whitespace |
| Text.Strip | london/sh_int_and_sh_mac.py:63-65 | `line.strip()` leaves no whitespace at either end and is no longer than the line |
| Text.StripRemovesOnlyEnds | london/sh_int_and_sh_mac.py:63-65 | `strip()` keeps one contiguous piece of the line, and every character removed before or after it is whitespace |
| Text.LStripPadded | london/sh_int_and_sh_mac.py:63-65 | whitespace before a text that starts with a non-space is removed exactly |
| Text.RStripPadded | london/sh_int_and_sh_mac.py:63-65 | whitespace after a text that ends with a non-space is removed exactly |
| Text.StripPadded | london/sh_int_and_sh_mac.py:63-65 | `strip()` of a stripped text with whitespace padding on both sides gives that text |
| Text.ReadText | python-scripts/add_dhcp_pool_and_gather.py:138 | `read_text()` in universal-newlines mode: no `\r` survives, each `\r\n` and lone `\r` becomes `\n`, and the text never grows |
| Text.ReadTextWithoutCR | python-scripts/add_dhcp_pool_and_gather.py:138 | a text without `\r` reads back unchanged |
| Text.ReadTextAppend | python-scripts/add_dhcp_pool_and_gather.py:138 | reading a concatenation reads the parts separately, when the first part does not end in `\r` |
| Text.ReadTextPrefix | python-scripts/add_dhcp_pool_and_gather.py:138 | a prefix that does not end in `\r` stays a prefix when both texts are read back |
| Text.SpaceNotWordChar | python-scripts/WLC_HA_verification.py:74-75 | no whitespace character is a `\w` character |
| Text.Lower | london/sh_int_and_sh_mac.py:128 | `lower()` maps each character by the ASCII case table and keeps the length |
| Text.Upper | london/sh_int_and_sh_mac.py:336 | `upper()` maps each character by the ASCII case table and keeps the length |
| Text.Find | london/sh_int_and_sh_mac.py:222-225 | `find` returns the first index where the name occurs, none earlier; -1 exactly when it does not occur |
| Text.IndexOf | london/sh_int_and_sh_mac.py:39 | the first `=` of the line, none before it, or -1 exactly when there is none |
| Text.LastIndexOf | london/merge_compare_mac.py:74 | the last `.` of a name, none after it, or -1 exactly when there is none |
| Text.TakeWord | london/sh_int_and_sh_mac.py:77-85 | the greedy `\S+` at the front of the text: non-space, maximal, non-empty when the text starts with a non-space |
| Text.Tokens | london/sh_int_and_sh_mac.py:67 | `split()` yields non-empty runs of non-space characters |
| Text.TokensAfter | python-scripts/sh_int_desc.py:72-77 | the text after the first `n` tokens splits into exactly the remaining tokens |
| Text.SplitOn | python-scripts/Avocent_SNs.py:22 | `split(',')` yields at least one piece and no piece contains the separator |
| Text.BeforeChar | python-scripts/Avocent_SNs.py:39 | `split('/')[0]` is a prefix free of `/`, and the whole text exactly when it has no `/` |
| Text.PySlice | london/sh_int_and_sh_mac.py:243-246 | a Python slice with non-negative bounds is clamped and never longer than the text |
| Text.SearchIndex | python-scripts/Avocent_SNs.py:109 | `re.search` finds the leftmost position where the pattern matches, none before it; -1 exactly when it matches nowhere |
| Text.Search | python-scripts/WLC_HA_verification.py:74-75 | a match exists exactly when the pattern matches at some position |
| Text.SearchFirst | python-scripts/Avocent_SNs.py:109-113 | a match with none before it is the one `re.search` returns |
| Text.NatToString | python-scripts/juniper_route_compare_subnet.py:95 | `str(n)` is a non-empty string of decimal digits |
| Text.DecimalOfNatToString | python-scripts/juniper_route_compare_subnet.py:76 | `int(str(n)) == n` |
| Text.NatToStringNoLeadingZero | python-scripts/juniper_route_compare_subnet.py:95 | `str(n)` starts with `0` only for zero |
| Rules.DetectVendor | london/sh_int_and_sh_mac.py:126-132 | Juniper iff the lower-cased banner names junos or juniper; Cisco iff it does not and names ios or cisco; unknown iff neither: the three are exclusive |
| Rules.IosXeNamesIos | london/sh_int_and_sh_mac.py:131 | the `ios-xe` alternative adds nothing: any text containing it contains `ios` |
| Rules.JuniperWins | python-scripts/sh_int_desc.py:102-108 | a banner naming both vendors, in any letter case, is taken for Juniper |
| Rules.HourSuffix | london/sh_int_and_sh_mac.py:355-361 | hour 0 or 20 gives `_LON.BASE.csv`, 5, 9, 10 or 14 gives `_LON.DAYTIME.csv`, any other hour `_LON.csv`, each both ways |
| Rules.CommitInChunk | python-scripts/banner.py:118-127 | a chunk showing `commit complete` in any case makes the accumulated output a success, whatever surrounds it |
| Rules.NoOutputNoCommit | python-scripts/banner.py:112-130 | an empty commit wait is never a success |
| Shell.Channel.constructor | london/sh_int_and_sh_mac.py:116-117 | a freshly invoked shell is open, has sent nothing and will answer the given readings |
| Shell.Channel.Recv | london/sh_int_and_sh_mac.py:168-171 | `recv` returns the next reading, `Fail` once the device has nothing more, and consumes it |
| Shell.Channel.Send | london/sh_int_and_sh_mac.py:173-174 | `send` appends its text to what was written, and changes nothing else |
| Shell.Channel.Close | london/sh_int_and_sh_mac.py:350-351 | `close` closes the channel and changes nothing else |
| Shell.Poll | london/sh_int_and_sh_mac.py:162-177 | a polling loop reads at most its bound of chunks and no more than the device has, with at most one reply per chunk read |
| Shell.ReplyTo | london/sh_int_and_sh_mac.py:173-174 | a chunk draws no reply or exactly one `' '` |
| Shell.PollShell | london/sh_int_and_sh_mac.py:162-177 | the loop on a live channel returns `Poll`'s output and `prompt_found` flag, writes exactly its replies, and leaves the rest of the device's answer unread |
| Shell.PollUnread | london/sh_int_and_sh_mac.py:291-306 | the readings the loop did not consume are exactly what the next loop of the session sees |
| Shell.PollOutputIsConcat | london/sh_int_and_sh_mac.py:164-172 | the accumulated output is the concatenation of the chunks read, in order |
| Shell.PollStopsOnFirst | london/sh_int_and_sh_mac.py:175-177 | `prompt_found` is set exactly when the last reading was a chunk that passes the prompt test, every earlier reading being a chunk that does not |
| Shell.PollEnds | london/sh_int_and_sh_mac.py:166-177 | the loop ends only on a prompt, a read error, its bound, or a device with nothing more to say |
| Shell.PollFailKeepsOutput | london/sh_int_and_sh_mac.py:168-171 | a read error stops the loop with `prompt_found` false and the output read before it kept |
| Shell.PollReplies | london/sh_int_and_sh_mac.py:173-174 | no replies without pager handling; with it, one `' '` per chunk read that shows `--More--`, however often |
| Shell.PollNoReplies | python-scripts/banner.py:112-121 | a loop that does not handle pagers writes nothing |
| Shell.PollPagerReplies | london/sh_int_and_sh_mac.py:173-174 | one `' '` per paging chunk read, counted over the chunks read |
| Shell.PromptAtEndIsStricter | london/clear_dhcp_guest.py:95 | a chunk that ends the prompt-at-end loop also ends the prompt-anywhere loop |
| Shell.PagedListing | london/sh_int_and_sh_mac.py:173-176 | example: a paged listing followed by a prompt chunk: both are read, one `' '` is sent, the prompt is found |
| ConfigFiles.KeyValue | london/sh_int_and_sh_mac.py:34-40 | a line gives a pair exactly when, stripped, it is non-empty, not a `#` comment and contains `=`; the key holds no `=` (split at the first) |
| ConfigFiles.KeyValueOfAssignment | london/sh_int_and_sh_mac.py:34-40 | an assignment `key = value`, with any whitespace around the key, the `=` and the value, reads back as its key (lower-cased when keys are lowered) and its value |
| ConfigFiles.CredsLookup | python-scripts/sh_run_sec_dhcp.py:19-36 | a credential is present exactly when some line assigns it, with the value of the last such line |
| ConfigFiles.LoadCreds | london/clear_dhcp_guest.py:25-37 | the credentials loop over `splitlines()` leaves exactly that dictionary |
| ConfigFiles.RequireKeys | london/sh_int_and_sh_mac.py:42-51 | the script goes on iff both keys are present, with their values; otherwise the first missing key is reported |
| ConfigFiles.RequireKeysOfText | python-scripts/juniper_route_compare.py:22-34 | the required keys pass exactly when some line of the text assigns each |
| ConfigFiles.WlcLogin | python-scripts/WLC_HA_verification.py:12-31 | login succeeds iff a non-empty `user` or `username` and a non-empty `password` exist; `user` is preferred |
| ConfigFiles.NonBlankLines | python-scripts/Avocent_SNs.py:19 | the kept lines are non-blank and contain no newline |
| ConfigFiles.AvocentCreds | python-scripts/Avocent_SNs.py:19-27 | no non-blank line raises `No credentials found`; else the first line, stripped, must split on `,` into exactly two fields |
| ConfigFiles.AvocentCredsOfLine | python-scripts/Avocent_SNs.py:19-27 | a one-line `user,password` text reads back as its two fields |
| ConfigFiles.HostLine | london/sh_int_and_sh_mac.py:61-74 | a hosts line gives a host exactly when, stripped, it is non-empty (and not a `#` line where comments are skipped); both fields are words |
| ConfigFiles.HostLineOfPair | london/sh_int_and_sh_mac.py:61-74 | `name ip` gives `(ip, name)` |
| ConfigFiles.HostLineOfTriple | python-scripts/sh_run_sec_dhcp.py:39-54 | tokens after the second are ignored |
| ConfigFiles.HostLineOfTokens | python-scripts/add_dhcp_pool_and_gather.py:45-60 | a stripped line of two or more tokens gives `(tokens[1], tokens[0])` |
| ConfigFiles.HostLineOfAddress | london/clear_dhcp_guest.py:49-62 | a lone address is its own name |
| ConfigFiles.ReadHosts | python-scripts/banner.py:46-61 | the hosts loop yields one `(ip, name)` per host line, in file order |
| ConfigFiles.StrippedLines | python-scripts/juniper_interfaces_status.py:53-54 | the host list is the stripped non-empty lines, `#` lines included |
| ConfigFiles.AvocentHostLine | python-scripts/Avocent_SNs.py:29-41 | a line gives a host exactly when it has two or more tokens; the address has no `/` |
| ConfigFiles.AvocentHostLineOfMasked | python-scripts/Avocent_SNs.py:35-40 | `name ip/mask` gives `(name, ip)` |
| ConfigFiles.AvocentHosts | python-scripts/Avocent_SNs.py:29-41 | `get_hosts` yields one host per such line, in file order |
| ConfigFiles.WlcHostLine | python-scripts/WLC_HA_verification.py:126-132 | a line gives a host exactly when it has two tokens, and the host is the second |
| ConfigFiles.WlcHosts | python-scripts/WLC_HA_verification_v1.1.py:110-116 | the hosts loop yields one address per two-token line, in file order |
| Interfaces.IntFields | python-scripts/sh_int_desc.py:72-77 | the interface pattern matches a stripped line exactly when it has three tokens or more: interface, admin and oper are the first three, the description is the rest after them |
| Interfaces.IntFieldsOfPrinted | python-scripts/sh_int_desc.py:153-157 | a line printed as `iface admin oper description` parses back into exactly those columns |
| Interfaces.IntFieldsOfWords | python-scripts/juniper_interfaces_status.py:119-123 | three words without a description give an empty description |
| Interfaces.EntryOfLine | python-scripts/sh_int_desc.py:147-165 | a line yields an entry exactly when, stripped, it survives the filter and parses; the entry is tagged with the host |
| Interfaces.EntriesMember | python-scripts/sh_int_desc.py:147-165 | the entries are exactly what the lines yield, tagged with the host |
| Interfaces.EntriesAppend | python-scripts/sh_int_desc.py:153-165 | lines contribute independently and in order: duplicates are kept |
| Interfaces.EchoParsedByShortFilter | python-scripts/juniper_interfaces_status.py:114-120 | example: the echoed `show interfaces description` is dropped by the longer filter but parsed as a row by the Juniper script's shorter one |
| Interfaces.ParseEntries | python-scripts/juniper_interfaces_status.py:114-125 | the line loop appends exactly the entries of the output's lines |
| Interfaces.JuniperRow | london/sh_int_and_sh_mac.py:276-289 | a Juniper-branch line gives a row exactly when it survives the short filter and parses with the interface pattern |
| Interfaces.CiscoRow | london/sh_int_and_sh_mac.py:256-275 | a Cisco line without a header gives a row exactly when it survives the long filter and has three tokens or more |
| Interfaces.ColumnsOf | london/sh_int_and_sh_mac.py:222-233 | the offsets are where the column names first occur in the lower-cased header; without a description column it starts at protocol + 8 |
| Interfaces.HeaderIndex | london/sh_int_and_sh_mac.py:214-219 | the first line naming interface, status and protocol, none before it; -1 exactly when there is none |
| Interfaces.StripPaddedCell | london/sh_int_and_sh_mac.py:243-246 | a trimmed cell followed by padding strips back to the cell |
| Interfaces.AlignedSlices | london/sh_int_and_sh_mac.py:243-246 | slicing a line at the header offsets cuts it back into the pieces laid at those offsets |
| Interfaces.HeaderRowOfAligned | london/sh_int_and_sh_mac.py:234-255 | a row printed in the header's columns gives back its interface, status, protocol and description |
| Interfaces.HeaderModeLastWins | london/sh_int_and_sh_mac.py:234-255 | once a header is found, an interface is in the map exactly when some later line gives it a row, with the last such row |
| Interfaces.NoHeaderLastWins | london/sh_int_and_sh_mac.py:256-275 | without a header the Cisco branch keeps, per interface, the last line that gives it a row |
| Interfaces.FindHeader | london/sh_int_and_sh_mac.py:214-219 | the header search loop returns the first header line's index, or -1 |
| Interfaces.ParseInterfaceTable | london/sh_int_and_sh_mac.py:180-289 | the interface parsing of one host leaves exactly the vendor's interface map of the output's lines |
| Interfaces.MacFields | london/sh_int_and_sh_mac.py:83-85 | the MAC pattern matches exactly when the line has four tokens or more and the second is made of MAC characters; it captures vlan, MAC and port |
| Interfaces.StatusOf | london/sh_int_and_sh_mac.py:341-343 | a port outside the interface map gets three empty strings, one in it gets its columns |
| Interfaces.MacRowsJoin | london/sh_int_and_sh_mac.py:328-347 | a MAC row exists exactly when a line survives the filters, matches, and its port is not `CPU` in any case; it carries the host and the port's status |
| Interfaces.MacRowsAppend | london/sh_int_and_sh_mac.py:328-347 | lines contribute one row each, independently and in order |
| Interfaces.JoinMacRows | london/sh_int_and_sh_mac.py:328-347 | the MAC loop appends exactly those rows |
| InventorySessions.BannerOf | london/sh_int_and_sh_mac.py:121-125 | the guarded banner read gives the chunk's text, or `''` on a failed read |
| InventorySessions.PagingSends | london/sh_int_and_sh_mac.py:134-151 | Cisco gets paging off and width 511, Juniper gets `cli`, an unknown device nothing, and nothing is sent exactly for unknown |
| InventorySessions.AfterPreamble | london/sh_int_and_sh_mac.py:134-151 | a known vendor costs one more guarded read after the banner |
| InventorySessions.Preamble | london/sh_int_and_sh_mac.py:121-151 | the banner read, vendor detection and preamble send exactly the vendor's lines and consume those readings |
| InventorySessions.InterfaceWait | london/sh_int_and_sh_mac.py:162-177 | the interface listing reads at most 20 chunks |
| InventorySessions.ListInterfaces | london/sh_int_and_sh_mac.py:153-289 | the command is sent, the listing polled, and the map parsed from what was read |
| InventorySessions.ListEntries | python-scripts/sh_int_desc.py:126-165 | the command is sent, the listing polled, and the entries parsed from it |
| InventorySessions.ListMacs | london/sh_int_and_sh_mac.py:291-347 | the MAC command is sent, the listing polled, and the rows joined with the interface map |
| InventorySessions.MacWait | london/sh_int_and_sh_mac.py:295-306 | the MAC listing reads at most 20 chunks |
| InventorySessions.InventoryHost | london/sh_int_and_sh_mac.py:103-351 | one host's rows, none when the connection fails, with exactly the session's writes, and the client closed on every path |
| InventorySessions.InventoryRowsTagged | london/sh_int_and_sh_mac.py:338-347 | every row of a host comes from a connected session, carries the host's name, is not the CPU port and has the port's status |
| InventorySessions.ListingsConsecutive | london/sh_int_and_sh_mac.py:162-306 | the MAC loop starts where the interface loop stopped reading |
| InventorySessions.CollectInventory | london/sh_int_and_sh_mac.py:95-351 | `all_data` is each host's rows in host-list order |
| InventorySessions.AllInventoryMember | london/sh_int_and_sh_mac.py:95-351 | a row is collected exactly when some host produced it |
| InventorySessions.UnreachableAddsNothing | london/sh_int_and_sh_mac.py:348-351 | a host that cannot be reached adds nothing, and the batch goes on with the rest |
| InventorySessions.DescriptionHost | python-scripts/sh_int_desc.py:81-169 | one host of the description script: the strict filters, the session's writes, the client closed |
| InventorySessions.DescriptionRowsFromLines | python-scripts/sh_int_desc.py:147-165 | every description row carries the host's name and comes from one line of the listing |
| InventorySessions.CollectDescriptions | python-scripts/sh_int_desc.py:79-169 | the batch is each host's entries in host-list order |
| InventorySessions.StatusWait | python-scripts/juniper_interfaces_status.py:92-109 | the status listing reads at most 20 chunks |
| InventorySessions.StatusSends | python-scripts/juniper_interfaces_status.py:85-90 | nothing is written when the unguarded banner read fails |
| InventorySessions.StatusHost | python-scripts/juniper_interfaces_status.py:68-129 | one host of the status script: its rows and writes, an aborted host closed like any other |
| InventorySessions.StatusSession | python-scripts/juniper_interfaces_status.py:81-125 | the connected part: rows and writes as the session determines them |
| InventorySessions.StatusListing | python-scripts/juniper_interfaces_status.py:89-125 | a failed second drain writes nothing more and yields no rows |
| InventorySessions.AbortedHostIsQuiet | python-scripts/juniper_interfaces_status.py:85-89 | a host whose unguarded drains fail contributes no rows and writes at most `cli` |
| InventorySessions.CollectStatuses | python-scripts/juniper_interfaces_status.py:64-129 | the batch is each host's rows in host-list order |
| InventorySessions.StrictRowsAreLooseRows | python-scripts/juniper_interfaces_status.py:114-120 | every row the description filters keep, the status filters keep too |
| MacInventory.NormalizeMac | london/merge_compare_mac.py:19-22 | the result is lower-case hexadecimal only, and no longer than the input |
| MacInventory.NormalizeMacIsLowerHex | london/merge_compare_mac.py:19-22 | it is the hexadecimal digits of the input, in order, lower-cased |
| MacInventory.NormalizeMacFixpoint | london/compare_mac_baseline.py:24-29 | a string is its own normal form exactly when it is already lower-case hexadecimal |
| MacInventory.NormalizeMacIdempotent | london/compare_mac_baseline.py:24-29 | normalising twice is normalising once |
| MacInventory.NormalizeMacAppend | london/merge_unique_diff_macs.py:16-19 | normalisation works character by character: it distributes over concatenation |
| MacInventory.DottedAndColonFormsMeet | london/merge_unique_diff_macs.py:2-5 | example: dotted and colon spellings of one MAC, in any case, normalise to the same key |
| MacInventory.CellMac | london/merge_compare_mac.py:46-47 | a missing cell normalises to `''`, a present one to its normal form |
| MacInventory.MacEntry | london/merge_compare_mac.py:46-49 | a row has a MAC exactly when its normalised cell is non-empty, and that is the MAC |
| MacInventory.FindMacFieldChoice | london/merge_compare_mac.py:24-31 | no field iff no name contains `mac`; the chosen name is an original spelling; an exact `mac address` is preferred, else the first name containing `mac` |
| MacInventory.ExactMentions | london/merge_compare_mac.py:24-31 | a name that is exactly `mac address` in some case also contains `mac`, so the exact test only reorders the choice |
| MacInventory.LoadedMacsMember | london/compare_mac_baseline.py:43-59 | a MAC is loaded exactly when the file exists, has a MAC column, and some row's normalised cell is that non-empty MAC |
| MacInventory.LoadMacsFromCsv | london/compare_mac_baseline.py:43-59 | the loading loop returns exactly those MACs |
| MacInventory.UnionMacsMember | london/compare_mac_baseline.py:114-118 | a MAC is in the baseline exactly when some baseline file loads it |
| MacInventory.BaselineMacs | london/merge_compare_mac.py:131-135 | the baseline loop returns the union of the files' MACs |
| MacInventory.DiffRowsMember | london/merge_compare_mac.py:65-72 | a row is in the diff exactly when it is a compare row whose normalised MAC is non-empty and not in the baseline |
| MacInventory.DiffAgainstUnion | london/compare_mac_baseline.py:75-82 | measured against the union, a row is in the diff exactly when its MAC appears in no baseline file |
| MacInventory.Suffix | london/compare_mac_baseline.py:84 | `path.suffix` is empty or starts with `.` |
| MacInventory.StemSuffix | london/compare_mac_baseline.py:84 | stem and suffix put together give the name back |
| MacInventory.DiffNameOfCsv | london/compare_mac_baseline.py:84 | `name.csv` becomes `name_diff_vs_baseline.csv` |
| MacInventory.CompareFile | london/merge_compare_mac.py:52-84 | missing file or MAC column gives `(None, 0, 0)` and writes nothing; otherwise nothing is written when no row is new, else the header and then the diff rows, in order, as the writer writes them; a diff row the writer refuses raises `ValueError` after the rows before it; the count is at most the total |
| MacInventory.DiffWritable | london/compare_mac_baseline.py:75-90 | when no data row is wider than the header, every diff row is written |
| MacInventory.DictRowWritable | london/merge_compare_mac.py:63-80 | every record of a file whose rows are no wider than its header can be written under that header |
| MacInventory.DiffRowsLength | london/compare_mac_baseline.py:75-82 | there are no more diff rows than rows |
| MacInventory.TimestampFrom | london/merge_compare_mac.py:112 | the first position at or after a point where `20\d{6}_\d{6}` matches (`\d` being any Unicode decimal digit), none before it; -1 when there is none |
| MacInventory.FirstTimestamp | london/merge_compare_mac.py:112-113 | `source_timestamp` is the first match of the pattern (with Unicode `\d`) in the file name, or `''` exactly when none matches |
| MacInventory.Tag | london/merge_unique_diff_macs.py:59-63 | a kept row gets `source_file` and `source_timestamp`, and keeps every other column |
| MacInventory.Dedup | london/merge_compare_mac.py:104-110 | the dedup keeps no more rows than it is given |
| MacInventory.Values | london/merge_compare_mac.py:114 | the output rows are the candidates' rows, in order |
| MacInventory.DedupDistinct | london/merge_unique_diff_macs.py:52-57 | kept MACs are pairwise distinct and none was seen before |
| MacInventory.DedupFirst | london/merge_unique_diff_macs.py:52-57 | a candidate is kept exactly when its MAC is unseen and no earlier candidate has that MAC: the first occurrence wins |
| MacInventory.DedupKeys | london/merge_compare_mac.py:104-110 | the kept MACs are the candidates' MACs less those already seen |
| MacInventory.RowCandidatesKeys | london/merge_unique_diff_macs.py:51-57 | a file's candidates have a MAC exactly when some row's normalised cell is that non-empty MAC |
| MacInventory.FileCandidatesKeys | london/merge_unique_diff_macs.py:47-57 | a file contributes exactly the MACs it would load; a file without a MAC column contributes none |
| MacInventory.CandidatesKeys | london/merge_compare_mac.py:100-114 | the merged MACs are the union over the files with a MAC column |
| MacInventory.RowCandidatesOrigin | london/merge_compare_mac.py:104-114 | every candidate comes from a row of the file, tagged, with its non-empty MAC |
| MacInventory.CandidateOrigin | london/merge_compare_mac.py:94-114 | every candidate comes from some file with a MAC column and some row of it |
| MacInventory.MergeFieldnames | london/merge_compare_mac.py:96-99 | the first file's field names plus the two metadata columns, even when that file has no MAC column; `[]` without files |
| MacInventory.MergeRows | london/merge_unique_diff_macs.py:51-64 | the row loop of one file extends the output by the deduplicated candidates and grows `seen` by their MACs |
| MacInventory.MergeFiles | london/merge_compare_mac.py:90-115 | the merge returns those field names and the first-occurrence-wins deduplication of all candidates in file, then row, order |
| MacInventory.WriteMerged | london/merge_compare_mac.py:147-160 | no diff files write nothing; otherwise the merged header and then the merged rows as the writer writes them, up to the first refused row |
| MacInventory.TagWritable | london/merge_compare_mac.py:111-113 | a row that could be written under its header can be written, tagged, under that header and the two metadata columns |
| MacInventory.CandidateWritable | london/merge_compare_mac.py:90-115 | a candidate from a file whose rows are no wider than its header can be written under that header and the metadata columns |
| MacInventory.MergeWritable | london/merge_compare_mac.py:152-159 | when every diff file has the first one's header and no row wider than it, every merged row is written |
| Routes.RouteOf | python-scripts/juniper_route_compare.py:45-49 | a line gives a route exactly when, stripped, it is non-empty, starts with a character `str.isdigit()` accepts (any Unicode digit) and contains `/`; the route is its first token |
| Routes.RouteOfPrefix | python-scripts/juniper_show_route.py:51-56 | a line that is only a digit-led prefix with `/` gives that prefix |
| Routes.RouteOfPrefixLine | python-scripts/juniper_show_route.py:51-56 | a prefix followed by further columns gives the prefix |
| Routes.SlashOutsideFirstToken | python-scripts/juniper_route_compare_subnet.py:50-51 | the `/` test covers the whole line: `1 a/b` gives route `1` |
| Routes.RouteOfPrefixLineLoose | python-scripts/juniper_route_compare_subnet.py:50-51 | any digit-led first token is taken when a later column holds the `/` |
| Routes.ExtractRoutesMember | python-scripts/juniper_route_compare.py:44-50 | a route is listed exactly when some line of the output gives it; every route is a digit-led token |
| Routes.GetRoutes | python-scripts/juniper_route_compare.py:36-55 | missing credentials raise before the session; a failed session gives `[]`; otherwise the output's routes |
| Routes.RouteRows | python-scripts/juniper_show_route.py:66-71 | one data row per route, in order |
| Routes.RouteCell | python-scripts/route_compare.py:4-6 | `row['Route'].strip()` succeeds exactly when the column exists and the row reaches it, and is the stripped cell |
| Routes.RouteList | python-scripts/juniper_route_compare_subnet.py:70-72 | the list fails exactly when some row's cell fails; its routes are non-blank and stripped, at most one per row |
| Routes.RouteListMember | python-scripts/route_compare.py:4-6 | a route is listed exactly when it is non-blank and some row's stripped cell is that route |
| Routes.RouteSet | python-scripts/juniper_route_compare.py:66-68 | the route set is read exactly when the list is, and never holds the blank route |
| Routes.ReadRouteRows | python-scripts/juniper_route_compare.py:57-68 | reading back the data rows written for a list of tokens gives that list |
| Routes.RouteFileRoundTrip | python-scripts/juniper_route_compare.py:57-68 | reading back the route file written from a list of tokens gives that list |
| Routes.ExtractedRoutesRoundTrip | python-scripts/juniper_route_compare.py:88-92 | the route set read back from the written file is the set of routes extracted |
| Routes.SiteMatchesMember | python-scripts/route_compare.py:14-21 | a `(site, subnet)` pair is matched exactly when some data row has that stripped site and a later non-blank cell that is a known route; the matches come in row, then column, order |
| Routes.AdMatches | python-scripts/route_compare.py:10-21 | the AD table compares exactly when it has a header (and, where the script reads `header[0]`, a non-empty one) and no blank data row |
| Routes.MatchRoutes | python-scripts/juniper_route_compare.py:70-79 | the nested loop returns exactly that comparison |
| Routes.ComparisonFile | python-scripts/route_compare.py:24-28 | the header, then one row per match, in order |
| Routes.CompareRoutes | python-scripts/juniper_route_compare.py:64-86 | the route file's error, else the AD table's error, else the comparison file of the matches |
| Ipv4.Pow2 | python-scripts/juniper_route_compare_subnet.py:76 | $2^k$ is at least 1 |
| Ipv4.ClearLowBounds | python-scripts/juniper_route_compare_subnet.py:76 | clearing the host bits moves down to the start of the aligned block holding the address |
| Ipv4.ClearLowAligned | python-scripts/juniper_route_compare_subnet.py:93 | an address with no host bits set is unchanged |
| Ipv4.Masked | python-scripts/juniper_route_compare_subnet.py:76 | `strict=False` gives a valid network of the requested length that contains the address |
| Ipv4.MaskedValid | python-scripts/juniper_route_compare_subnet.py:93 | masking a valid network changes nothing |
| Ipv4.SubnetOfIsInclusion | python-scripts/juniper_route_compare_subnet.py:109 | `subnet_of` is inclusion of address sets |
| Ipv4.SubnetOfAntisymmetric | python-scripts/juniper_route_compare_subnet.py:105-109 | two valid networks inside each other are equal |
| Ipv4.ProperSubnetIsLonger | python-scripts/juniper_route_compare_subnet.py:109-111 | a proper subnet has a strictly longer prefix |
| Ipv4.ParseOctet | python-scripts/juniper_route_compare_subnet.py:76 | a parsed octet is below 256 |
| Ipv4.ParseAddress | python-scripts/juniper_route_compare_subnet.py:76 | a parsed address is below $2^{32}$ |
| Ipv4.ParseOctets | python-scripts/juniper_route_compare_subnet.py:76 | four parsed octets give an address below $2^{32}$ |
| Ipv4.NetmaskLength | python-scripts/juniper_route_compare_subnet.py:76 | the prefix length whose netmask is the given one, or none exactly when no length has it |
| Ipv4.MaskLength | python-scripts/juniper_route_compare_subnet.py:76 | a dotted mask gives a prefix length of at most 32 |
| Ipv4.ParseLength | python-scripts/juniper_route_compare_subnet.py:76 | the text after `/` gives a prefix length of at most 32 |
| Ipv4.ParseNet | python-scripts/juniper_route_compare_subnet.py:76 | whatever parses is a valid network |
| Ipv4.ParseAddressOfString | python-scripts/juniper_route_compare_subnet.py:76 | a printed address parses back to itself |
| Ipv4.ParseLengthOfString | python-scripts/juniper_route_compare_subnet.py:76 | a printed prefix length parses back to itself |
| Ipv4.ParseNetOfString | python-scripts/juniper_route_compare_subnet.py:93-95 | `ip_network(str(net))` is `net` |
| Ipv4.NetToStringInjective | python-scripts/juniper_route_compare_subnet.py:95 | different networks print differently, so the printed form keys `ad_sites` faithfully |
| SubnetCompare.RouterNets | python-scripts/juniper_route_compare_subnet.py:73-80 | the router networks are valid |
| SubnetCompare.ParseRouterNets | python-scripts/juniper_route_compare_subnet.py:73-80 | the `try`/`except ValueError: continue` loop keeps each route that parses, in order |
| SubnetCompare.Nets | python-scripts/juniper_route_compare_subnet.py:94 | `ad_routes` holds each entry's network, in order |
| SubnetCompare.AdTable | python-scripts/juniper_route_compare_subnet.py:83-97 | the AD table is read exactly when it has a header row and no blank data row; its networks are valid and each one's printed form keys `ad_sites` |
| SubnetCompare.AdScan | python-scripts/juniper_route_compare_subnet.py:88-97 | the same for the data rows after the header |
| SubnetCompare.AdTableSites | python-scripts/juniper_route_compare_subnet.py:94-95 | a network keys `ad_sites` exactly when it is an AD network; its site is that of the last row listing it |
| SubnetCompare.AdTableWellFormed | python-scripts/juniper_route_compare_subnet.py:94-95 | every AD network is valid and keys the site map |
| SubnetCompare.AdEntriesValid | python-scripts/juniper_route_compare_subnet.py:92-97 | only cells that parse are entered |
| SubnetCompare.AddRowNets | python-scripts/juniper_route_compare_subnet.py:90-97 | the cell loop of one row extends `ad_routes` by the networks its cells parse to, in column order, and records each one's site in `ad_sites` |
| SubnetCompare.BuildAdTable | python-scripts/juniper_route_compare_subnet.py:83-97 | the AD loop, with `next(reader)` for the header, returns exactly the AD table |
| SubnetCompare.ScanAdRows | python-scripts/juniper_route_compare_subnet.py:88-97 | the data-row loop returns exactly the scan |
| SubnetCompare.Classify | python-scripts/juniper_route_compare_subnet.py:100-117 | a subnet verdict names a valid AD network |
| SubnetCompare.ClassifyExact | python-scripts/juniper_route_compare_subnet.py:105-108 | perfect match exactly when the route is an AD network, with that network's site |
| SubnetCompare.ClassifyNoMatch | python-scripts/juniper_route_compare_subnet.py:116-117 | no match exactly when no AD network contains the route |
| SubnetCompare.ClassifySubnet | python-scripts/juniper_route_compare_subnet.py:109-115 | a subnet verdict names the last AD network containing the route, a proper and shorter one, with its site |
| SubnetCompare.ClassifyRoute | python-scripts/juniper_route_compare_subnet.py:100-117 | the scan with `found_exact`, `found_subnet`, `parent_site` and `break` returns exactly the verdict |
| SubnetCompare.ClassifyAtExact | python-scripts/juniper_route_compare_subnet.py:104-108 | the scan stops at the first AD network equal to the route |
| SubnetCompare.ClassifyWithoutExact | python-scripts/juniper_route_compare_subnet.py:109-111 | without an equal AD network the last enclosing one decides |
| SubnetCompare.NoteNoMatch | python-scripts/juniper_route_compare_subnet.py:116-123 | the note is `No match or subnet` exactly for the no-match verdict |
| SubnetCompare.Results | python-scripts/juniper_route_compare_subnet.py:98-117 | one result per router network |
| SubnetCompare.ResultsAt | python-scripts/juniper_route_compare_subnet.py:100-117 | each router network's entry is its own result |
| SubnetCompare.OutputRows | python-scripts/juniper_route_compare_subnet.py:119-124 | the comparison file begins with the header |
| SubnetCompare.OutputRowsMember | python-scripts/juniper_route_compare_subnet.py:119-124 | a router network appears in the file exactly when some AD network contains it, in router-route order |
| SubnetCompare.WrittenRow | python-scripts/juniper_route_compare_subnet.py:122-124 | the writer keeps a result exactly when some AD network contains the route |
| SubnetCompare.CompareSubnets | python-scripts/juniper_route_compare_subnet.py:68-125 | the route file's error, else a result exactly when the AD table reads |
| SubnetCompare.AnalyzeRoutes | python-scripts/juniper_route_compare_subnet.py:98-117 | the analysis loop returns exactly the results |
| SubnetCompare.WriteResults | python-scripts/juniper_route_compare_subnet.py:119-124 | the writer loop returns exactly the comparison rows |
| SubnetCompare.CompareRoutesSubnet | python-scripts/juniper_route_compare_subnet.py:68-125 | the whole comparison returns exactly what `CompareSubnets` says |
| SubnetCompare.CompareWrittenRoutes | python-scripts/juniper_route_compare_subnet.py:127-131 | comparing the route file just written compares the extracted routes themselves |
| JunosBanner.Replace | python-scripts/banner.py:73-75 | after replacing a character by text free of it, the character is gone |
| JunosBanner.ReplaceAppend | python-scripts/banner.py:73-75 | replacement works piece by piece |
| JunosBanner.ReplacedIsEscaped | python-scripts/banner.py:73-75 | the three chained replacements, in the script's order, escape each character on its own |
| JunosBanner.EscapedOneLine | python-scripts/banner.py:74-75 | the escaped message holds no raw newline |
| JunosBanner.EscapedQuotes | python-scripts/banner.py:73 | every `"` in the escaped message comes right after a `\` |
| JunosBanner.EscapedStart | python-scripts/banner.py:73 | the escaped message never starts with a quote |
| JunosBanner.ReadEscaped | python-scripts/banner.py:73-76 | decoding the escaped message left to right recovers the banner exactly, and the string ends at the closing quote |
| JunosBanner.ReadLiteralCanonical | python-scripts/banner.py:73-76 | only escaped text reads as a string: what reads as a banner is that banner's escaping |
| JunosBanner.ConfigBlock | python-scripts/banner.py:64-77 | the snippet is the fixed frame around the escaped banner, and read back from the opening quote it gives the banner and the rest of the frame |
| JunosBanner.CommitWait | python-scripts/banner.py:112-121 | the commit wait sends nothing |
| JunosBanner.RunOnHost | python-scripts/banner.py:80-138 | True on a dry run without contact; otherwise the five writes then the commit wait, success exactly when the output shows `commit complete`; closed on every path |
| JunosBanner.CompleteCommitUpdates | python-scripts/banner.py:112-130 | a commit whose first reported outcome says `commit complete` updates the host |
| JunosBanner.Chunks | python-scripts/banner.py:113-118 | one reading per chunk, in order |
| JunosBanner.PollStopsAfter | python-scripts/banner.py:113-121 | chunks that do not report an outcome are all read, and the reporting chunk ends the loop |
| JunosBanner.Outcomes | python-scripts/banner.py:166-170 | one outcome per host, each that host's run |
| JunosBanner.UpdateAll | python-scripts/banner.py:166-172 | the success count is the number of True results: at most the hosts, and all of them on a dry run |
| DhcpSessions.CommandWait | python-scripts/sh_run_sec_dhcp.py:72-84 | the command wait, and the pool script's `show` wait, read at most 120 chunks |
| DhcpSessions.RunCommandOnHost | python-scripts/sh_run_sec_dhcp.py:57-99 | True exactly when no exception escaped, prompt or not; the command plus newline is sent once before polling, the output is saved only on success, and the client is closed |
| DhcpSessions.SuccessWithoutPrompt | python-scripts/sh_run_sec_dhcp.py:85-91 | example: a device that never shows a prompt after the command still succeeds |
| DhcpSessions.CommandOutcomes | python-scripts/sh_run_sec_dhcp.py:116-120 | one result per host, each that host's success |
| DhcpSessions.RunCommandAll | python-scripts/sh_run_sec_dhcp.py:116-121 | the success count is the number of True results |
| DhcpSessions.AllSavedAllCount | python-scripts/sh_run_sec_dhcp.py:85-94 | every host that connects and saves counts |
| DhcpSessions.PoolSends | python-scripts/add_dhcp_pool_and_gather.py:80-93 | seven lines starting with `configure terminal` and with `end` fifth |
| DhcpSessions.PoolResult | python-scripts/add_dhcp_pool_and_gather.py:63-110 | OK exactly on a dry run or a connection; a dry run has no output; a failure carries the exception text |
| DhcpSessions.RunOnPoolHost | python-scripts/add_dhcp_pool_and_gather.py:63-115 | one host: that result, the seven lines then the pager replies, and the client closed unless a dry run returned first |
| DhcpSessions.Section | python-scripts/add_dhcp_pool_and_gather.py:136-141 | a host's block starts with `--- name (ip) ---` and ends with a blank line |
| DhcpSessions.PoolResults | python-scripts/add_dhcp_pool_and_gather.py:134-135 | one result per host, in order |
| DhcpSessions.GatherAll | python-scripts/add_dhcp_pool_and_gather.py:131-143 | the combined file is what rewriting it once per host leaves: its text read back, then that host's section; `successes` counts the OK results, all hosts on a dry run |
| DhcpSessions.ReportStep | python-scripts/add_dhcp_pool_and_gather.py:134-141 | one more host appends its section to the sections, and its section to the read-back file |
| DhcpSessions.SectionsPrefix | python-scripts/add_dhcp_pool_and_gather.py:134-141 | the sections of the first hosts are where the sections of all of them start |
| DhcpSessions.ReportEnd | python-scripts/add_dhcp_pool_and_gather.py:136-141 | the sections end at a line end |
| DhcpSessions.ReportFileForm | python-scripts/add_dhcp_pool_and_gather.py:131-141 | the final file is every section but the last with its line ends normalised, then the last section as written |
| DhcpSessions.ReportPrefix | python-scripts/add_dhcp_pool_and_gather.py:132-141 | the sections written for the first hosts, with their line ends normalised, are where the final file starts |
| DhcpSessions.ReportFileWithoutCR | python-scripts/add_dhcp_pool_and_gather.py:131-141 | when no section holds a `\r`, the final file is exactly the sections in host order |
| DhcpSessions.FailedSection | python-scripts/add_dhcp_pool_and_gather.py:140-141 | a failed host's block has `ERROR: ` right after its header |
| DhcpSessions.ClearWait | london/clear_dhcp_guest.py:86-96 | at most 10 reads and no pager replies |
| DhcpSessions.ClearOutput | london/clear_dhcp_guest.py:68-97 | output is printed exactly when the host connects and neither unguarded read fails |
| DhcpSessions.ClearSends | london/clear_dhcp_guest.py:80-84 | `cli` comes before the clear command, and nothing else is written |
| DhcpSessions.ClearHost | python-scripts/clear_dhcp_guest.py:52-89 | one host: its printed output and writes, and the client closed on every path |
| DhcpSessions.ClearSession | london/clear_dhcp_guest.py:77-97 | the connected part: the printed output and exactly those writes |
| DhcpSessions.ClearOutputs | london/clear_dhcp_guest.py:64-101 | one printed output per host, in order |
| DhcpSessions.ClearAll | python-scripts/clear_dhcp_guest.py:52-89 | the host loop goes on past a failing host |
| DhcpSessions.ClearOutputIsChunks | london/clear_dhcp_guest.py:86-97 | the printed output is the chunks read up to the first containing `>` or `#`, or up to a read error |
| AvocentSerials.SerialAt | python-scripts/Avocent_SNs.py:109 | a captured serial is a word |
| AvocentSerials.SerialAtWord | python-scripts/Avocent_SNs.py:109 | the tag followed by a word captures exactly that word |
| AvocentSerials.SerialOfText | python-scripts/Avocent_SNs.py:108-113 | a found serial is a word and the text holds the tag |
| AvocentSerials.SerialColumn | python-scripts/Avocent_SNs.py:155-157 | the chassis line's second-to-last token, a word |
| AvocentSerials.ChassisOf | python-scripts/Avocent_SNs.py:144-158 | a serial is found exactly when some stripped line starts with `Chassis` and has at least three tokens |
| AvocentSerials.ChassisRegexAgrees | python-scripts/Avocent_SNs.py:148-157 | whenever the regex matches, the line is a chassis line and the split gives the same serial |
| AvocentSerials.ChassisOfPrinted | python-scripts/Avocent_SNs.py:149 | example: `Chassis <serial> <model>` gives its serial |
| AvocentSerials.MatchChassis | python-scripts/Avocent_SNs.py:148-158 | the regex, then the split, finds a serial exactly for a chassis line |
| AvocentSerials.ScanChassis | python-scripts/Avocent_SNs.py:144-158 | the scan stops at the first chassis line and returns its serial, or `''` |
| AvocentSerials.Steps | python-scripts/Avocent_SNs.py:107-129 | two commands when the first two outputs match, a third only when they do not, a fourth only when the third does not either |
| AvocentSerials.Session | python-scripts/Avocent_SNs.py:95-164 | the commands sent are the first `Steps` of the four; the serial is empty or a word |
| AvocentSerials.SessionFirstWins | python-scripts/Avocent_SNs.py:108-113 | the first occurrence of the tag in the first two outputs, followed by a word, is reported before any fallback command |
| AvocentSerials.SerialAtFound | python-scripts/Avocent_SNs.py:109 | the pattern matches where the tag first occurs and nowhere before |
| AvocentSerials.GetSerialNumber | python-scripts/Avocent_SNs.py:44-167 | dry run gives `('DRY_RUN', 'yes')`; reachable `yes` exactly when connected; a session's serial, `''` on refusal or exception; the ping decides the refusal's verdict |
| AvocentSerials.ProcessDevice | python-scripts/Avocent_SNs.py:184-189 | the row keeps name and address; an exception becomes `ERROR: ` and `no SSH and no ICMP` |
| Wlc.ModelOfPid | python-scripts/WLC_HA_verification.py:76-83 | `5520` wins over `5508`; otherwise the PID itself |
| Wlc.ModelInPid | python-scripts/WLC_HA_verification.py:76-83 | the model always occurs in its PID |
| Wlc.InventoryIds | python-scripts/WLC_HA_verification.py:74-87 | no PID gives `Unknown` for PID and model, else the model of the PID; the serial is the SN match or `Unknown`; `[\w-]` takes every Unicode word character and `-` |
| Wlc.IdCharNotSpace | python-scripts/WLC_HA_verification.py:74-75 | no character of `[\w-]` is whitespace, so the `\s*` before a captured id stops at it |
| Wlc.TagAtValue | python-scripts/WLC_HA_verification.py:74-75 | `PID: value` captures the value |
| Wlc.NameInjective | python-scripts/WLC_HA_verification_v1.1.py:33-43 | distinct fields have distinct column names |
| Wlc.CsvFieldsAll | python-scripts/WLC_HA_verification_v1.1.py:145 | `csv_fields` lists every field |
| Wlc.Index | python-scripts/WLC_HA_verification_v1.1.py:145 | each field's position in `csv_fields` |
| Wlc.WlcResultFields | python-scripts/WLC_HA_verification_v1.1.py:33-106 | the result has every field, each with its value: address and timestamp as given, labelled values or `Unknown`, `""` for the unreached, `str(e)` or `""` |
| Wlc.RecordFields | python-scripts/WLC_HA_verification_v1.1.py:33-43 | the record built for a result has every field, each holding that field's value |
| Wlc.RunSteps | python-scripts/WLC_HA_verification_v1.1.py:79-97 | each step runs only when the ones before it did not raise |
| Wlc.AnalyzeWlc | python-scripts/WLC_HA_verification_v1.1.py:32-106 | `analyze_wlc` returns exactly that record |
| Wlc.ResultKeepsFilled | python-scripts/WLC_HA_verification_v1.1.py:102-105 | fields filled before an exception are kept |
| Wlc.StepsKeepFilled | python-scripts/WLC_HA_verification_v1.1.py:79-97 | a step that ran reads the same output however many follow |
| Wlc.FailedResult | python-scripts/WLC_HA_verification_v1.1.py:137-140 | a failed future yields `{ip, error}` only |
| Wlc.Completed | python-scripts/WLC_HA_verification_v1.1.py:149-153 | a completed row has every field, present ones unchanged, missing ones `""` |
| Wlc.CompletedResult | python-scripts/WLC_HA_verification_v1.1.py:149-153 | completing a full result changes nothing |
| Wlc.CompleteRow | python-scripts/WLC_HA_verification_v1.1.py:150-152 | the completion loop returns exactly the completed row |
| Wlc.CompleteRows | python-scripts/WLC_HA_verification_v1.1.py:149-153 | every row is completed, in order |

## Left out

- SSH, authentication, `invoke_shell`, `exec_command` and `pexpect` are not modelled. A host is
  a `Device`: whether it connects, and the readings its shell answers. `str(e)` of a failure is
  a parameter.
- UTF-8 decode errors are merged into a `Fail` reading. The scripts that decode with
  `errors='ignore'` never raise, and the model does not distinguish which characters are
  dropped.
- `time.sleep`, timeouts and the wall clock are not modelled. The Avocent `read_until_prompt`
  loop and the JunOS chassis loop end on a deadline, so their outputs are parameters
  (`Probe`). `datetime.now()`, `time.strftime` and the hour are parameters.
- Fernet encryption and decryption are not modelled, including `encrypt_credentials.py` and
  `encrypt_admin_credentials.py`. The model starts from the decrypted text.
- `pull_hosts_from_netbox.py` is not modelled. It is an interactive REST client.
- `ThreadPoolExecutor` and `as_completed` are not modelled. The model keeps results in host
  order; the real order is nondeterministic.
- The `textfsm` branch of `london/sh_int_and_sh_mac.py` is not modelled. It depends on a
  foreign library.
- The Avocent ICMP ping is not run. Its verdict is a parameter (`Refused(ping)`).
- CSV quoting, file reading and writing, globbing and directories are not modelled. Files are
  rows or lines, an absent file is `Missing`, and a write that fails is the `saves` flag.
- The header-mode `except` branch and the no-header `re.split` fallback of the Cisco parser
  are dead code. The slices never raise, and the fallback runs only on lines with fewer than
  three tokens, where it appends nothing. They are not modelled.
- Logging, printing, the debug files and the WLC JSON dumps are not modelled.
- Text files are assumed to be written on a POSIX system in an encoding that round-trips the
  text: `write_text` then writes each character as given. On Windows it would turn each `\n`
  into `\r\n`, which the next `read_text()` turns back; the model does not follow that.
  Universal-newline reading itself is modelled (`Text.ReadText`).
- The Unicode classes `str.isdigit()`, `\d` and `\w` follow the Unicode 15.0 database, as
  Python 3.12 ships it. Another Python release may classify newly assigned characters
  differently.
- Python's full Unicode case mapping is not modelled. `lower()` and `upper()` are modelled on
  ASCII letters only; the keyword tests compare against ASCII words.
- IPv6 is not modelled. Networks are IPv4 only, as `ipaddress.ip_network(text, strict=False)`
  parses them: dotted quad, an optional decimal length, netmask or host mask, no leading
  zeros. Mixing IPv4 and IPv6 in `subnet_of` raises an uncaught error in the script.
- In-place updates of Python dictionaries (`row['source_file'] = ...`,
  `row[field] = ""`) are modelled on values. The model does not capture aliasing between the
  row objects and the output list.
- The JunOS banner and WLC scripts' `pexpect` prompt waits are not modelled. Each command's
  output is a parameter.
