/** The requests that back a machine up and restore it, and the checks that guard them. */
module BackupContracts {
  import opened Wrappers
  import opened Decimal
  import opened RequestBodies

  datatype Scope = Scope(vmids: set<int>, restoreVmids: set<int>, backupStorages: set<string>, restoreStorages: set<string>,
                         bridges: set<string>)

  // ----- backup

  function BackupPrefix(): string {
    "vm-backup-"
  }

  function BackupBody(vmid: int, storage: string, operation: string): Body {
    map["vmid" := Text(PrintInt(vmid)), "storage" := Text(storage), "mode" := Text("snapshot"), "compress" := Text("zstd"),
        "remove" := Num(0), "all" := Num(0), "stop" := Num(0), "fleecing" := Text("enabled=0"), "lockwait" := Num(0),
        "notification-mode" := Text("legacy-sendmail"), "mailto" := Text(""), "notes-template" := Text(operation)]
  }

  // The number a text of the scope stands for.
  function ParseInt(s: string): (r: Option<int>) {
    if s != [] && AllDigits(s) then Some(Parse(s))
    else if |s| > 1 && s[0] == '-' && AllDigits(s[1..]) then Some(0 - Parse(s[1..]))
    else None
  }

  lemma ParseIntPrint(n: int)
    ensures ParseInt(PrintInt(n)) == Some(n)
  {
    if n < 0 {
      var s := Print(-n);
      assert PrintInt(n) == "-" + s && (("-" + s)[1..]) == s;
      ParsePrint(-n);
      hide Print, Parse;
    } else {
      ParsePrint(n);
    }
  }

  predicate BackupAllowed(data: Body, scope: Scope) {
    var vmid, storage, marker := TextAt(data, "vmid"), TextAt(data, "storage"), TextAt(data, "notes-template");
    && vmid.Some? && (exists v :: v in scope.vmids && PrintInt(v) == vmid.value) && ParseInt(vmid.value).Some?
    && storage.Some? && storage.value in scope.backupStorages
    && marker.Some? && IsOperation(BackupPrefix(), marker.value)
    && EqualBodies(data, BackupBody(ParseInt(vmid.value).value, storage.value, marker.value))
    && forall k :: k in ["remove", "all", "stop", "lockwait"] ==> k in data && data[k].Num?
  }

  predicate BackupInScope(vmid: int, storage: string, operation: string, scope: Scope) {
    vmid in scope.vmids && storage in scope.backupStorages && IsOperation(BackupPrefix(), operation)
  }

  lemma BackupFields(vmid: int, storage: string, operation: string)
    ensures var data := BackupBody(vmid, storage, operation);
            && TextAt(data, "vmid") == Some(PrintInt(vmid)) && TextAt(data, "storage") == Some(storage)
            && TextAt(data, "notes-template") == Some(operation)
            && (forall k :: k in ["remove", "all", "stop", "lockwait"] ==> k in data && data[k].Num?)
            && EqualBodies(data, data)
  {
  }

  // A body equal to a backup body that carries its four numbers as integers is that body.
  lemma BackupTyped(data: Body, vmid: int, storage: string, operation: string)
    requires EqualBodies(data, BackupBody(vmid, storage, operation))
    requires forall k :: k in ["remove", "all", "stop", "lockwait"] ==> k in data && data[k].Num?
    ensures data == BackupBody(vmid, storage, operation)
  {
    var expected := BackupBody(vmid, storage, operation);
    BackupKinds(vmid, storage, operation);
    hide BackupBody;
    forall k | k in expected ensures SameType(data[k], expected[k]) {
      assert Equal(data[k], expected[k]);
    }
    SameTypesEqual(data, expected);
  }

  lemma BackupKinds(vmid: int, storage: string, operation: string)
    ensures var data := BackupBody(vmid, storage, operation);
            forall k :: k in data ==> if k in ["remove", "all", "stop", "lockwait"] then data[k].Num? else data[k].Text?
  {
    hide PrintInt;
  }

  // The accepted bodies are exactly the backup bodies in scope.
  lemma BackupAllowedExactly(data: Body, scope: Scope)
    ensures BackupAllowed(data, scope) <==>
      exists vmid, storage, operation :: BackupInScope(vmid, storage, operation, scope) && data == BackupBody(vmid, storage, operation)
  {
    hide IsOperation, BackupBody, EqualBodies, PrintInt, ParseInt, BackupPrefix;
    if BackupAllowed(data, scope) {
      var v :| v in scope.vmids && PrintInt(v) == TextAt(data, "vmid").value;
      ParseIntPrint(v);
      BackupTyped(data, v, data["storage"].s, data["notes-template"].s);
      assert BackupInScope(v, data["storage"].s, data["notes-template"].s, scope);
    }
    if vmid, storage, operation :| BackupInScope(vmid, storage, operation, scope) && data == BackupBody(vmid, storage, operation) {
      BackupFields(vmid, storage, operation);
      ParseIntPrint(vmid);
    }
  }

  lemma BackupInjective(vmid: int, storage: string, operation: string, other: int, storage': string, operation': string)
    requires BackupBody(vmid, storage, operation) == BackupBody(other, storage', operation')
    ensures vmid == other && storage == storage' && operation == operation'
  {
    BackupFields(vmid, storage, operation);
    BackupFields(other, storage', operation');
    hide BackupBody, PrintInt;
    PrintIntInjective(vmid, other);
  }

  // ----- archives

  function ArchiveOpening(): (s: string)
    ensures s != [] && s[0] == ':'
  {
    ":backup/vzdump-qemu-"
  }

  predicate IsEnding(s: string) {
    s == ".vma" || s == ".vma.zst" || s == ".vma.gz" || s == ".vma.lzo"
  }

  const STAMP_LENGTH: nat := 19

  // `dddd_dd_dd-dd_dd_dd`, where `digit` says which characters count as digits.
  predicate IsStamp(digit: char -> bool, s: string) {
    && |s| == STAMP_LENGTH
    && s[4] == '_' && s[7] == '_' && s[10] == '-' && s[13] == '_' && s[16] == '_'
    && forall i :: 0 <= i < |s| && i != 4 && i != 7 && i != 10 && i != 13 && i != 16 ==> digit(s[i])
  }

  datatype Archive = Archive(storage: string, vmid: int)

  function ArchiveText(storage: string, vmid: int, stamp: string, ending: string): string {
    storage + (ArchiveOpening() + (PrintInt(vmid) + ['-'] + (stamp + ending)) + "")
  }

  function MatchArchive(digit: char -> bool, s: string): (r: Option<Archive>)
    ensures r.Some? ==> IsId(r.value.storage) && 100 <= r.value.vmid <= 999999999
                        && exists stamp, ending :: IsStamp(digit, stamp) && IsEnding(ending)
                             && s == ArchiveText(r.value.storage, r.value.vmid, stamp, ending)
  {
    hide ArchiveOpening, Cut, SplitAt, IsId, IsStamp, IsEnding, IsVmidText;
    var parts := Cut(s, ArchiveOpening(), "");
    if parts.None? || !IsId(parts.value.0) then None
    else
      var file := SplitAt(parts.value.1, '-');
      if file.None? || !IsVmidText(file.value.0) || |file.value.1| < STAMP_LENGTH then None
      else
        var stamp, ending := file.value.1[..STAMP_LENGTH], file.value.1[STAMP_LENGTH..];
        if !IsStamp(digit, stamp) || !IsEnding(ending) then None
        else
          VmidTextParses(file.value.0);
          assert file.value.1 == stamp + ending;
          assert s == ArchiveText(parts.value.0, Parse(file.value.0), stamp, ending);
          Some(Archive(parts.value.0, Parse(file.value.0)))
  }

  // An archive name gives back the storage and the machine it was written with.
  lemma MatchArchiveJoin(digit: char -> bool, storage: string, vmid: nat, stamp: string, ending: string)
    requires IsId(storage) && 100 <= vmid <= 999999999 && IsStamp(digit, stamp) && IsEnding(ending)
    ensures MatchArchive(digit, ArchiveText(storage, vmid, stamp, ending)) == Some(Archive(storage, vmid))
  {
    assert ':' !in storage;
    CutJoin(storage, ArchiveOpening(), PrintInt(vmid) + ['-'] + (stamp + ending), "");
    assert PrintInt(vmid) == Print(vmid) && '-' !in Print(vmid);
    SplitAtJoin(Print(vmid), '-', stamp + ending);
    assert (stamp + ending)[..STAMP_LENGTH] == stamp && (stamp + ending)[STAMP_LENGTH..] == ending;
    VmidTextOf(vmid);
    ParsePrint(vmid);
    hide ArchiveOpening, Cut, SplitAt, IsId, IsStamp, IsEnding, IsVmidText, Print;
  }

  predicate SelectedArchive(digit: char -> bool, archive: string, scope: Scope) {
    var a := MatchArchive(digit, archive);
    a.Some? && a.value.storage in scope.backupStorages && a.value.vmid in scope.vmids
  }

  // ----- restore

  function RestorePrefix(): string {
    "vm-restore-"
  }

  function NicOpening(): string {
    "virtio="
  }

  function NicBridge(): (s: string)
    ensures s != [] && s[0] == ','
  {
    ",bridge="
  }

  function NicLink(): (s: string)
    ensures s != [] && s[0] == ','
  {
    ",link_down=1,firewall="
  }

  const MAC_LENGTH: nat := 17

  predicate IsUpperHex(c: char) {
    'A' <= c <= 'F' || IsDigit(c)
  }

  // A locally administered address: `02` and five more pairs in capitals.
  predicate IsMac(s: string) {
    && |s| == MAC_LENGTH && s[0] == '0' && s[1] == '2'
    && forall i :: 2 <= i < |s| ==> if i % 3 == 2 then s[i] == ':' else IsUpperHex(s[i])
  }

  datatype Restore = Restore(vmid: int, name: string, archive: string, storage: string, bridge: string, mac: string, firewall: int,
                             operation: string)

  function NicText(mac: string, bridge: string, firewall: string): string {
    NicOpening() + (mac + (NicBridge() + (bridge + (NicLink() + firewall))))
  }

  function RestoreBody(r: Restore): Body {
    map["vmid" := Num(r.vmid), "name" := Text(r.name), "archive" := Text(r.archive), "storage" := Text(r.storage),
        "description" := Text(r.operation), "net0" := Text(NicText(r.mac, r.bridge, PrintInt(r.firewall))),
        "force" := Num(0), "unique" := Num(1), "start" := Num(0), "live-restore" := Num(0), "onboot" := Num(0)]
  }

  const RESTORE_KEYS: set<string> := {"vmid", "name", "archive", "storage", "description", "net0", "force", "unique", "start",
                                      "live-restore", "onboot"}

  datatype Nic = Nic(mac: string, bridge: string, firewall: string)

  function TakePrefix(s: string, prefix: string): (r: Option<string>)
    ensures r.Some? ==> s == prefix + r.value
  {
    if |s| >= |prefix| && s[..|prefix|] == prefix then Some(s[|prefix|..]) else None
  }

  predicate IsFirewall(s: string) {
    s == "0" || s == "1"
  }

  // Reads the address, the bridge and the firewall flag out of a network definition.
  function MatchNic(s: string): (r: Option<Nic>)
    ensures r.Some? ==> s == NicText(r.value.mac, r.value.bridge, r.value.firewall)
                        && IsMac(r.value.mac) && IsId(r.value.bridge) && IsFirewall(r.value.firewall)
  {
    hide NicOpening, NicBridge, NicLink, Cut, TakePrefix, IsMac, IsId, IsFirewall;
    var body := TakePrefix(s, NicOpening());
    if body.None? || |body.value| < MAC_LENGTH then None
    else
      var mac, rest := body.value[..MAC_LENGTH], body.value[MAC_LENGTH..];
      assert body.value == mac + rest;
      var named := TakePrefix(rest, NicBridge());
      if named.None? || !IsMac(mac) then None
      else
        var parts := Cut(named.value, NicLink(), "");
        if parts.None? || !IsId(parts.value.0) || !IsFirewall(parts.value.1) then None
        else
          assert NicLink() + parts.value.1 + "" == NicLink() + parts.value.1;
          Some(Nic(mac, parts.value.0, parts.value.1))
  }

  lemma MatchNicJoin(mac: string, bridge: string, firewall: string)
    requires IsMac(mac) && IsId(bridge) && IsFirewall(firewall)
    ensures MatchNic(NicText(mac, bridge, firewall)) == Some(Nic(mac, bridge, firewall))
  {
    assert ',' !in bridge;
    var tail := bridge + (NicLink() + firewall);
    var rest := NicBridge() + tail;
    var body := mac + rest;
    assert body[..MAC_LENGTH] == mac && body[MAC_LENGTH..] == rest;
    CutJoin(bridge, NicLink(), firewall, "");
    assert NicLink() + firewall + "" == NicLink() + firewall;
    hide NicOpening, NicBridge, NicLink, Cut, TakePrefix, IsMac, IsId, IsFirewall;
  }

  predicate NumIs(data: Body, key: string, n: int) {
    NumAt(data, key) == Some(n)
  }

  // The check of a POST to the machines of a node.
  predicate RestoreAllowed(digit: char -> bool, data: Body, scope: Scope) {
    if data.Keys != RESTORE_KEYS then false
    else
      var archive := if TextAt(data, "archive").Some? then MatchArchive(digit, data["archive"].s) else None;
      var nic := if TextAt(data, "net0").Some? then MatchNic(data["net0"].s) else None;
      && NumAt(data, "vmid").Some? && data["vmid"].n in scope.restoreVmids
      && archive.Some? && archive.value.storage in scope.backupStorages && archive.value.vmid in scope.vmids
      && data["vmid"].n != archive.value.vmid
      && TextAt(data, "storage").Some? && data["storage"].s in scope.restoreStorages
      && nic.Some? && nic.value.bridge in scope.bridges
      && TextAt(data, "name").Some? && IsName(data["name"].s)
      && TextAt(data, "description").Some? && IsOperation(RestorePrefix(), data["description"].s)
      && NumIs(data, "force", 0) && NumIs(data, "unique", 1) && NumIs(data, "start", 0)
      && NumIs(data, "live-restore", 0) && NumIs(data, "onboot", 0)
  }

  predicate RestoreInScope(digit: char -> bool, r: Restore, scope: Scope) {
    && r.vmid in scope.restoreVmids && IsName(r.name) && IsOperation(RestorePrefix(), r.operation)
    && SelectedArchive(digit, r.archive, scope) && MatchArchive(digit, r.archive).value.vmid != r.vmid
    && r.storage in scope.restoreStorages && r.bridge in scope.bridges && IsId(r.bridge)
    && IsMac(r.mac) && 0 <= r.firewall <= 1
  }

  lemma RestoreFields(r: Restore)
    ensures var data := RestoreBody(r);
            && data.Keys == RESTORE_KEYS
            && data["vmid"] == Num(r.vmid) && data["name"] == Text(r.name) && data["archive"] == Text(r.archive)
            && data["storage"] == Text(r.storage) && data["description"] == Text(r.operation)
            && data["net0"] == Text(NicText(r.mac, r.bridge, PrintInt(r.firewall)))
            && NumIs(data, "force", 0) && NumIs(data, "unique", 1) && NumIs(data, "start", 0)
            && NumIs(data, "live-restore", 0) && NumIs(data, "onboot", 0)
  {
  }

  // The eleven fields make the body.
  lemma RestoreFromFields(data: Body, r: Restore)
    requires data.Keys == RESTORE_KEYS
    requires data["vmid"] == Num(r.vmid) && data["name"] == Text(r.name) && data["archive"] == Text(r.archive)
    requires data["storage"] == Text(r.storage) && data["description"] == Text(r.operation)
    requires data["net0"] == Text(NicText(r.mac, r.bridge, PrintInt(r.firewall)))
    requires NumIs(data, "force", 0) && NumIs(data, "unique", 1) && NumIs(data, "start", 0)
             && NumIs(data, "live-restore", 0) && NumIs(data, "onboot", 0)
    ensures data == RestoreBody(r)
  {
    hide NicText, PrintInt;
    assert forall k :: k in data ==> data[k] == RestoreBody(r)[k];
  }

  lemma FirewallPrints(n: int)
    requires 0 <= n <= 1
    ensures PrintInt(n) == (if n == 0 then "0" else "1") && IsFirewall(PrintInt(n))
  {
  }

  lemma RestoreBuiltIsAllowed(digit: char -> bool, r: Restore, scope: Scope)
    requires RestoreInScope(digit, r, scope)
    ensures RestoreAllowed(digit, RestoreBody(r), scope)
  {
    RestoreFields(r);
    FirewallPrints(r.firewall);
    MatchNicJoin(r.mac, r.bridge, PrintInt(r.firewall));
    hide RestoreBody, MatchNic, MatchArchive, NicText, IsMac, IsId, IsName, IsOperation, PrintInt, RestorePrefix;
  }

  lemma RestoreAllowedIsBuilt(digit: char -> bool, data: Body, scope: Scope) returns (r: Restore)
    requires RestoreAllowed(digit, data, scope)
    ensures RestoreInScope(digit, r, scope) && data == RestoreBody(r)
  {
    hide RestoreBody, MatchNic, MatchArchive, NicText, IsMac, IsId, IsName, IsOperation, PrintInt, RestorePrefix;
    var nic := MatchNic(data["net0"].s).value;
    var firewall := if nic.firewall == "0" then 0 else 1;
    FirewallPrints(firewall);
    r := Restore(data["vmid"].n, data["name"].s, data["archive"].s, data["storage"].s, nic.bridge, nic.mac, firewall, data["description"].s);
    RestoreFromFields(data, r);
  }

  // The accepted bodies are exactly the restore bodies in scope.
  lemma RestoreAllowedExactly(digit: char -> bool, data: Body, scope: Scope)
    ensures RestoreAllowed(digit, data, scope) <==> exists r :: RestoreInScope(digit, r, scope) && data == RestoreBody(r)
  {
    hide RestoreAllowed, RestoreInScope, RestoreBody;
    if RestoreAllowed(digit, data, scope) { var r := RestoreAllowedIsBuilt(digit, data, scope); }
    if r :| RestoreInScope(digit, r, scope) && data == RestoreBody(r) { RestoreBuiltIsAllowed(digit, r, scope); }
  }

  // Different restores have different bodies.
  lemma RestoreInjective(a: Restore, b: Restore)
    requires IsMac(a.mac) && IsMac(b.mac) && IsId(a.bridge) && IsId(b.bridge) && 0 <= a.firewall <= 1 && 0 <= b.firewall <= 1
    requires RestoreBody(a) == RestoreBody(b)
    ensures a == b
  {
    RestoreFields(a);
    RestoreFields(b);
    FirewallPrints(a.firewall);
    FirewallPrints(b.firewall);
    MatchNicJoin(a.mac, a.bridge, PrintInt(a.firewall));
    MatchNicJoin(b.mac, b.bridge, PrintInt(b.firewall));
    PrintIntEqual(a.firewall, b.firewall);
    hide RestoreBody, MatchNic, NicText, IsMac, IsId, PrintInt;
  }

  lemma PrintIntEqual(m: int, n: int)
    ensures PrintInt(m) == PrintInt(n) <==> m == n
  {
    if PrintInt(m) == PrintInt(n) { PrintIntInjective(m, n); }
  }

  // ----- the shapes, part by part

  predicate Digits(digit: char -> bool, s: string, n: nat) {
    |s| == n && forall i :: 0 <= i < n ==> digit(s[i])
  }

  // A stamp is a date and a time of day: four digits and five pairs, with their separators.
  ghost predicate StampParts(digit: char -> bool, s: string, year: string, month: string, day: string, hour: string, minute: string, second: string) {
    && Digits(digit, year, 4) && Digits(digit, month, 2) && Digits(digit, day, 2)
    && Digits(digit, hour, 2) && Digits(digit, minute, 2) && Digits(digit, second, 2)
    && s == year + "_" + month + "_" + day + "-" + hour + "_" + minute + "_" + second
  }

  lemma StampJoined(digit: char -> bool, s: string, year: string, month: string, day: string, hour: string, minute: string, second: string)
    requires StampParts(digit, s, year, month, day, hour, minute, second)
    ensures IsStamp(digit, s)
  {
    assert |s| == 19;
    assert s[0..4] == year && s[5..7] == month && s[8..10] == day && s[11..13] == hour && s[14..16] == minute && s[17..19] == second;
    assert s[4] == '_' && s[7] == '_' && s[10] == '-' && s[13] == '_' && s[16] == '_';
    forall i | 0 <= i < 19 && i != 4 && i != 7 && i != 10 && i != 13 && i != 16 ensures digit(s[i]) {
      StampDigit(digit, s, year, month, day, hour, minute, second, i);
    }
  }

  lemma StampDigit(digit: char -> bool, s: string, year: string, month: string, day: string, hour: string, minute: string, second: string, i: nat)
    requires Digits(digit, year, 4) && Digits(digit, month, 2) && Digits(digit, day, 2)
    requires Digits(digit, hour, 2) && Digits(digit, minute, 2) && Digits(digit, second, 2)
    requires |s| == 19 && s[0..4] == year && s[5..7] == month && s[8..10] == day && s[11..13] == hour && s[14..16] == minute && s[17..19] == second
    requires i < 19 && i != 4 && i != 7 && i != 10 && i != 13 && i != 16
    ensures digit(s[i])
  {
    if i < 4 { assert s[i] == year[i]; }
    else if i < 7 { assert s[i] == month[i - 5]; }
    else if i < 10 { assert s[i] == day[i - 8]; }
    else if i < 13 { assert s[i] == hour[i - 11]; }
    else if i < 16 { assert s[i] == minute[i - 14]; }
    else { assert s[i] == second[i - 17]; }
  }

  lemma StampExactly(digit: char -> bool, s: string)
    ensures IsStamp(digit, s) <==> exists year, month, day, hour, minute, second :: StampParts(digit, s, year, month, day, hour, minute, second)
  {
    if IsStamp(digit, s) {
      assert StampParts(digit, s, s[0..4], s[5..7], s[8..10], s[11..13], s[14..16], s[17..19]);
    }
    if year, month, day, hour, minute, second :| StampParts(digit, s, year, month, day, hour, minute, second) {
      StampJoined(digit, s, year, month, day, hour, minute, second);
    }
  }

  // An archive ends in `.vma`, compressed or not.
  lemma EndingExactly(s: string)
    ensures IsEnding(s) <==> s == ".vma" + "" || s == ".vma" + ".zst" || s == ".vma" + ".gz" || s == ".vma" + ".lzo"
  {
  }

  // Two capital hexadecimal digits, by character code.
  predicate HexPair(s: string) {
    |s| == 2 && forall i :: 0 <= i < 2 ==> 48 <= s[i] as int < 58 || 65 <= s[i] as int < 71
  }

  ghost predicate MacParts(s: string, a: string, b: string, c: string, d: string, e: string) {
    && HexPair(a) && HexPair(b) && HexPair(c) && HexPair(d) && HexPair(e)
    && s == "02:" + a + ":" + b + ":" + c + ":" + d + ":" + e
  }

  // An address is `02` and five pairs.
  lemma MacExactly(s: string)
    ensures IsMac(s) <==> exists a, b, c, d, e :: MacParts(s, a, b, c, d, e)
  {
    if IsMac(s) {
      MacSplits(s);
    }
    if a, b, c, d, e :| MacParts(s, a, b, c, d, e) {
      MacJoined(s, a, b, c, d, e);
    }
  }

  lemma MacSplits(s: string)
    requires IsMac(s)
    ensures MacParts(s, s[3..5], s[6..8], s[9..11], s[12..14], s[15..17])
  {
    assert s[2] == ':' && s[5] == ':' && s[8] == ':' && s[11] == ':' && s[14] == ':';
    assert s == "02:" + s[3..5] + ":" + s[6..8] + ":" + s[9..11] + ":" + s[12..14] + ":" + s[15..17];
  }

  lemma MacJoined(s: string, a: string, b: string, c: string, d: string, e: string)
    requires MacParts(s, a, b, c, d, e)
    ensures IsMac(s)
  {
    assert |s| == 17 && s[0] == '0' && s[1] == '2';
    assert s[2] == ':' && s[5] == ':' && s[8] == ':' && s[11] == ':' && s[14] == ':';
    assert s[3] == a[0] && s[4] == a[1] && s[6] == b[0] && s[7] == b[1] && s[9] == c[0] && s[10] == c[1];
    assert s[12] == d[0] && s[13] == d[1] && s[15] == e[0] && s[16] == e[1];
  }

  // The texts that stand for numbers: digits, with a minus or without.
  ghost predicate StandsForNumber(s: string) {
    exists digits :: digits != [] && AllDigits(digits) && (s == digits || s == "-" + digits)
  }

  lemma ParseIntExactly(s: string)
    ensures ParseInt(s).Some? <==> StandsForNumber(s)
    ensures s != [] && AllDigits(s) ==> ParseInt(s) == Some(Parse(s)) && ParseInt("-" + s) == Some(0 - Parse(s))
  {
    hide Parse, AllDigits;
    if ParseInt(s).Some? { NumberSplits(s); }
    if digits :| digits != [] && AllDigits(digits) && (s == digits || s == "-" + digits) {
      MinusDigits(digits);
    }
    if s != [] { MinusDigits(s); }
  }

  lemma NumberSplits(s: string)
    requires ParseInt(s).Some?
    ensures StandsForNumber(s)
  {
    hide Parse, AllDigits;
    if !AllDigits(s) { assert s == "-" + s[1..]; }
  }

  lemma MinusDigits(digits: string)
    requires digits != []
    ensures AllDigits(digits) ==> ParseInt(digits) == Some(Parse(digits)) && ParseInt("-" + digits) == Some(0 - Parse(digits))
  {
    var s := "-" + digits;
    assert s[1..] == digits && s[0] == '-';
    assert !IsDigit(s[0]);
    assert !AllDigits(s);
    hide Parse, AllDigits;
  }

  // ----- accepted requests, field by field

  lemma BackupFixedFields(vmid: int, storage: string, operation: string)
    ensures var data := BackupBody(vmid, storage, operation);
            && data.Keys == {"vmid", "storage", "mode", "compress", "remove", "all", "stop", "fleecing", "lockwait",
                             "notification-mode", "mailto", "notes-template"}
            && data["vmid"] == Text(PrintInt(vmid)) && data["storage"] == Text(storage) && data["notes-template"] == Text(operation)
            && data["mode"] == Text("snapshot") && data["compress"] == Text("zstd") && data["fleecing"] == Text("enabled=0")
            && data["remove"] == Num(0) && data["all"] == Num(0) && data["stop"] == Num(0) && data["lockwait"] == Num(0)
            && data["notification-mode"] == Text("legacy-sendmail") && data["mailto"] == Text("")
  {
    hide PrintInt;
  }

  // A backup is a snapshot of one machine in scope that removes and stops nothing.
  lemma BackupAcceptedFields(data: Body, scope: Scope)
    requires BackupAllowed(data, scope)
    ensures data.Keys == {"vmid", "storage", "mode", "compress", "remove", "all", "stop", "fleecing", "lockwait",
                          "notification-mode", "mailto", "notes-template"}
    ensures exists vmid, digest :: vmid in scope.vmids && data["vmid"] == Text(PrintInt(vmid))
                                   && IsDigest(digest) && data["notes-template"] == Text("vm-backup-" + digest)
    ensures data["storage"].Text? && data["storage"].s in scope.backupStorages
    ensures data["mode"] == Text("snapshot") && data["compress"] == Text("zstd") && data["fleecing"] == Text("enabled=0")
    ensures data["remove"] == Num(0) && data["all"] == Num(0) && data["stop"] == Num(0) && data["lockwait"] == Num(0)
    ensures data["notification-mode"] == Text("legacy-sendmail") && data["mailto"] == Text("")
  {
    BackupAllowedExactly(data, scope);
    hide BackupAllowed, IsDigest, PrintInt, BackupBody;
    var vmid, storage, operation :| BackupInScope(vmid, storage, operation, scope) && data == BackupBody(vmid, storage, operation);
    BackupFixedFields(vmid, storage, operation);
    var digest := operation[|BackupPrefix()|..];
    assert operation == "vm-backup-" + digest;
  }

  // A restore makes a new machine out of an archive of another one, with its network down, under
  // a unique address, and neither overwrites nor starts anything.
  lemma RestoreAcceptedFields(digit: char -> bool, data: Body, scope: Scope)
    requires RestoreAllowed(digit, data, scope)
    ensures data.Keys == {"vmid", "name", "archive", "storage", "description", "net0", "force", "unique", "start", "live-restore", "onboot"}
    ensures data["force"] == Num(0) && data["unique"] == Num(1) && data["start"] == Num(0)
    ensures data["live-restore"] == Num(0) && data["onboot"] == Num(0)
    ensures data["vmid"].Num? && data["vmid"].n in scope.restoreVmids
    ensures data["name"].Text? && IsName(data["name"].s) && data["storage"].Text? && data["storage"].s in scope.restoreStorages
    ensures exists digest :: IsDigest(digest) && data["description"] == Text("vm-restore-" + digest)
    ensures data["net0"].Text? && exists mac, bridge, firewall ::
              IsMac(mac) && bridge in scope.bridges && (firewall == "0" || firewall == "1")
              && data["net0"].s == "virtio=" + (mac + (",bridge=" + (bridge + (",link_down=1,firewall=" + firewall))))
    ensures data["archive"].Text? && exists storage, vmid, stamp, ending ::
              && storage in scope.backupStorages && vmid in scope.vmids && vmid != data["vmid"].n && IsStamp(digit, stamp) && IsEnding(ending)
              && data["archive"].s == storage + (":backup/vzdump-qemu-" + (PrintInt(vmid) + "-" + (stamp + ending)))
  {
    RestoreArchiveFields(digit, data, scope);
    hide MatchArchive, IsDigest, PrintInt, IsName, IsMac, IsStamp, IsEnding;
    var nic := MatchNic(data["net0"].s).value;
    var digest := data["description"].s[|RestorePrefix()|..];
    assert data["description"].s == "vm-restore-" + digest;
    hide MatchNic;
    assert data["net0"].s == "virtio=" + (nic.mac + (",bridge=" + (nic.bridge + (",link_down=1,firewall=" + nic.firewall))));
  }

  lemma RestoreArchiveFields(digit: char -> bool, data: Body, scope: Scope)
    requires RestoreAllowed(digit, data, scope)
    ensures exists storage, vmid, stamp, ending ::
              && storage in scope.backupStorages && vmid in scope.vmids && vmid != data["vmid"].n && IsStamp(digit, stamp) && IsEnding(ending)
              && data["archive"].s == storage + (":backup/vzdump-qemu-" + (PrintInt(vmid) + "-" + (stamp + ending)))
  {
    var a := MatchArchive(digit, data["archive"].s).value;
    hide MatchArchive, MatchNic, IsStamp, IsEnding, PrintInt, IsName, IsOperation;
    var stamp, ending :| IsStamp(digit, stamp) && IsEnding(ending) && data["archive"].s == ArchiveText(a.storage, a.vmid, stamp, ending);
    ArchiveLiteral(a.storage, PrintInt(a.vmid), stamp + ending);
  }

  lemma ArchiveLiteral(storage: string, vmid: string, rest: string)
    ensures storage + (ArchiveOpening() + (vmid + ['-'] + rest) + "") == storage + (":backup/vzdump-qemu-" + (vmid + "-" + rest))
  {
  }
}
