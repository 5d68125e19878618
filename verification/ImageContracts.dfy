/** The request that builds a machine from an uploaded image, and the check that guards it. */
module ImageContracts {
  import opened Wrappers
  import opened Decimal
  import opened RequestBodies

  datatype Scope = Scope(imageVmids: set<int>, storages: set<string>, bridges: set<string>)

  datatype Build = Build(vmid: int, name: string, storage: string, bridge: string, source: string, operation: string)

  function OperationPrefix(): string {
    "vm-image-build-"
  }

  function DiskOpening(): (s: string)
    ensures s != [] && s[0] == ':'
  {
    ":0,import-from="
  }

  function DiskClosing(): string {
    ",format=qcow2"
  }

  function BridgeOpening(): string {
    "virtio,bridge="
  }

  function Folder(): string {
    "import/"
  }

  function FilePrefix(): (s: string)
    ensures ',' !in s
  {
    "gjallar-image-"
  }

  function FileSuffix(): (s: string)
    ensures ',' !in s
  {
    ".qcow2"
  }

  function VolumeOpening(): (s: string)
    ensures s != [] && s[0] == ':' && s == [':'] + (Folder() + FilePrefix())
    ensures ',' !in s
  {
    ":import/gjallar-image-"
  }

  function UploadFilename(vmid: int, operation: string): Option<string> {
    if IsOperation(OperationPrefix(), operation)
    then Some(FilePrefix() + (PrintInt(vmid) + ['-'] + operation[|OperationPrefix()|..]) + FileSuffix())
    else None
  }

  function DiskText(storage: string, source: string): string {
    storage + (DiskOpening() + source + DiskClosing())
  }

  function VmCreatePayload(b: Build): Body {
    map["vmid" := Num(b.vmid), "name" := Text(b.name), "description" := Text(b.operation),
        "cores" := Num(2), "memory" := Num(2048),
        "ostype" := Text("l26"), "bios" := Text("seabios"), "scsihw" := Text("virtio-scsi-pci"), "vga" := Text("std"),
        "scsi0" := Text(DiskText(b.storage, b.source)),
        "ide2" := Text(b.storage + ":cloudinit"), "net0" := Text(BridgeOpening() + b.bridge),
        "boot" := Text("order=scsi0"), "agent" := Text("enabled=1"), "onboot" := Num(0), "ipconfig0" := Text("ip=dhcp")]
  }

  datatype Disk = Disk(storage: string, source: string)

  predicate IsStorageText(s: string) {
    s != [] && All(IdChar, s)
  }

  predicate IsSourceText(s: string) {
    s != [] && ',' !in s
  }

  lemma StorageHasNo(s: string)
    requires IsStorageText(s)
    ensures ':' !in s && ',' !in s
  {
  }

  // Reads the storage and the imported volume out of a disk definition.
  function MatchDisk(s: string): (r: Option<Disk>)
    ensures r.Some? ==> s == DiskText(r.value.storage, r.value.source) && IsStorageText(r.value.storage) && IsSourceText(r.value.source)
  {
    var parts := Cut(s, DiskOpening(), DiskClosing());
    if parts.None? || !IsStorageText(parts.value.0) || !IsSourceText(parts.value.1) then None
    else Some(Disk(parts.value.0, parts.value.1))
  }

  lemma MatchDiskJoin(storage: string, source: string)
    requires IsStorageText(storage) && IsSourceText(source)
    ensures MatchDisk(DiskText(storage, source)) == Some(Disk(storage, source))
  {
    StorageHasNo(storage);
    CutJoin(storage, DiskOpening(), source, DiskClosing());
    hide DiskOpening, DiskClosing, Cut, IsStorageText, IsSourceText;
  }

  // A disk definition is matched exactly when it is one: a storage identifier, the import of a
  // volume whose name has no comma, and the format.
  lemma MatchDiskExactly(s: string, storage: string, source: string)
    ensures MatchDisk(s) == Some(Disk(storage, source)) <==>
      && s == storage + (":0,import-from=" + source + ",format=qcow2")
      && storage != [] && (forall i :: 0 <= i < |storage| ==> CodeOf(storage[i], true, 26, {45, 46, 95}))
      && source != [] && forall i :: 0 <= i < |source| ==> source[i] != ','
  {
    StorageExactly(storage);
    SourceExactly(source);
    assert DiskText(storage, source) == storage + (":0,import-from=" + source + ",format=qcow2");
    hide CodeOf, IsStorageText, IsSourceText;
    if IsStorageText(storage) && IsSourceText(source) { MatchDiskJoin(storage, source); }
    hide MatchDisk, DiskText;
  }

  lemma StorageExactly(storage: string)
    ensures IsStorageText(storage) <==> storage != [] && forall i :: 0 <= i < |storage| ==> CodeOf(storage[i], true, 26, {45, 46, 95})
  {
    forall c ensures IdChar(c) <==> CodeOf(c, true, 26, {45, 46, 95}) { CodesExactly(c); }
    hide CodeOf, IdChar;
  }

  lemma SourceExactly(source: string)
    ensures IsSourceText(source) <==> source != [] && forall i :: 0 <= i < |source| ==> source[i] != ','
  {
  }

  datatype Volume = Volume(storage: string, vmid: int)

  function VolumeText(storage: string, vmid: int, digest: string): string {
    storage + (VolumeOpening() + (PrintInt(vmid) + ['-'] + digest) + FileSuffix())
  }

  // Reads an uploaded image out of a volume name.
  function MatchVolume(s: string): (r: Option<Volume>)
    ensures r.Some? ==> IsStorageText(r.value.storage) && 100 <= r.value.vmid <= 999999999
                        && exists digest :: IsDigest(digest) && s == VolumeText(r.value.storage, r.value.vmid, digest)
  {
    hide VolumeOpening, FileSuffix, Cut, SplitAt, IsStorageText, IsDigest, IsVmidText;
    var parts := Cut(s, VolumeOpening(), FileSuffix());
    if parts.None? || !IsStorageText(parts.value.0) then None
    else
      var file := SplitAt(parts.value.1, '-');
      if file.None? || !IsVmidText(file.value.0) || !IsDigest(file.value.1) then None
      else
        VmidTextParses(file.value.0);
        assert s == VolumeText(parts.value.0, Parse(file.value.0), file.value.1);
        Some(Volume(parts.value.0, Parse(file.value.0)))
  }

  lemma MatchVolumeJoin(storage: string, vmid: nat, digest: string)
    requires IsStorageText(storage) && IsDigest(digest) && 100 <= vmid <= 999999999
    ensures MatchVolume(VolumeText(storage, vmid, digest)) == Some(Volume(storage, vmid))
  {
    StorageHasNo(storage);
    CutJoin(storage, VolumeOpening(), PrintInt(vmid) + ['-'] + digest, FileSuffix());
    assert PrintInt(vmid) == Print(vmid) && '-' !in Print(vmid);
    SplitAtJoin(Print(vmid), '-', digest);
    VmidTextOf(vmid);
    ParsePrint(vmid);
    hide VolumeOpening, FileSuffix, Cut, SplitAt, IsStorageText, IsDigest, IsVmidText, Print;
  }

  predicate SelectedImport(volume: string, scope: Scope) {
    var v := MatchVolume(volume);
    v.Some? && v.value.storage in scope.storages && v.value.vmid in scope.imageVmids
  }

  function WithoutPrefix(s: string, prefix: string): string {
    if |s| >= |prefix| && s[..|prefix|] == prefix then s[|prefix|..] else s
  }

  lemma WithoutPrefixJoin(prefix: string, s: string)
    ensures WithoutPrefix(prefix + s, prefix) == s
  {
    assert (prefix + s)[..|prefix|] == prefix && (prefix + s)[|prefix|..] == s;
  }

  // The body is the payload of this very build, types included.
  predicate IsPayloadOf(data: Body, b: Build) {
    var expected := VmCreatePayload(b);
    EqualBodies(data, expected) && forall k :: k in expected ==> SameType(data[k], expected[k])
  }

  // The check of a POST to the machines of a node.
  predicate RequestAllowed(data: Body, scope: Scope) {
    var vmid, name, operation := NumAt(data, "vmid"), TextAt(data, "name"), TextAt(data, "description");
    if vmid.None? || vmid.value !in scope.imageVmids || name.None? || !IsName(name.value)
       || operation.None? || !IsOperation(OperationPrefix(), operation.value) then false
    else
      var scsi := if "scsi0" in data then data["scsi0"] else Text("");
      if !scsi.Text? then false
      else
        var disk := MatchDisk(scsi.s);
        var net := TextAt(data, "net0");
        var bridge := if net.Some? then WithoutPrefix(net.value, BridgeOpening()) else "";
        if disk.None? || disk.value.storage !in scope.storages || bridge !in scope.bridges || !SelectedImport(disk.value.source, scope) then false
        else
          var file, volume := UploadFilename(vmid.value, operation.value), SplitAt(disk.value.source, ':');
          if file.None? || volume.None? || volume.value.1 != Folder() + file.value then false
          else IsPayloadOf(data, Build(vmid.value, name.value, disk.value.storage, bridge, disk.value.source, operation.value))
  }

  // The builds that lie in the scope: the source is the image uploaded for this very build.
  ghost predicate InScope(b: Build, scope: Scope) {
    && b.vmid in scope.imageVmids && 100 <= b.vmid <= 999999999
    && IsName(b.name) && IsOperation(OperationPrefix(), b.operation)
    && IsStorageText(b.storage) && b.storage in scope.storages && b.bridge in scope.bridges
    && exists from :: UploadedAt(b, scope, from)
  }

  predicate UploadedAt(b: Build, scope: Scope, from: string) {
    && IsStorageText(from) && from in scope.storages && UploadFilename(b.vmid, b.operation).Some?
    && b.source == from + [':'] + (Folder() + UploadFilename(b.vmid, b.operation).value)
  }

  // The two ways to write the name of an uploaded volume.
  lemma UploadedText(from: string, vmid: int, digest: string)
    ensures from + [':'] + (Folder() + (FilePrefix() + (PrintInt(vmid) + ['-'] + digest) + FileSuffix())) == VolumeText(from, vmid, digest)
  {
    var opening := VolumeOpening();
    assert opening == [':'] + (Folder() + FilePrefix());
    hide VolumeOpening, FileSuffix, FilePrefix, Folder, PrintInt;
  }

  lemma UploadedShape(b: Build, scope: Scope, from: string)
    requires UploadedAt(b, scope, from) && 100 <= b.vmid <= 999999999
    ensures MatchVolume(b.source) == Some(Volume(from, b.vmid))
    ensures SplitAt(b.source, ':') == Some((from, Folder() + UploadFilename(b.vmid, b.operation).value))
    ensures IsSourceText(b.source)
  {
    var digest := b.operation[|OperationPrefix()|..];
    UploadedText(from, b.vmid, digest);
    assert IsDigest(digest);
    MatchVolumeJoin(from, b.vmid, digest);
    StorageHasNo(from);
    SplitAtJoin(from, ':', Folder() + UploadFilename(b.vmid, b.operation).value);
    VolumeHasNoComma(from, b.vmid, digest);
    hide VolumeOpening, FileSuffix, FilePrefix, Folder, MatchVolume, SplitAt, IsStorageText, IsDigest, VolumeText, PrintInt;
  }

  lemma VolumeHasNoComma(storage: string, vmid: int, digest: string)
    requires IsStorageText(storage) && IsDigest(digest)
    ensures IsSourceText(VolumeText(storage, vmid, digest))
  {
    StorageHasNo(storage);
    assert ',' !in digest;
    hide VolumeOpening, FileSuffix, PrintInt, IsStorageText, IsDigest;
  }

  // Every build in scope is accepted.
  lemma BuiltIsAllowed(b: Build, scope: Scope)
    requires InScope(b, scope)
    ensures RequestAllowed(VmCreatePayload(b), scope)
  {
    var from :| UploadedAt(b, scope, from);
    UploadedShape(b, scope, from);
    MatchDiskJoin(b.storage, b.source);
    WithoutPrefixJoin(BridgeOpening(), b.bridge);
    PayloadFields(b);
    hide MatchDisk, MatchVolume, UploadFilename, SplitAt, IsName, IsOperation, VmCreatePayload, DiskText, WithoutPrefix,
         BridgeOpening, Folder, OperationPrefix;
  }

  lemma PayloadFields(b: Build)
    ensures var data := VmCreatePayload(b);
            && NumAt(data, "vmid") == Some(b.vmid) && TextAt(data, "name") == Some(b.name)
            && TextAt(data, "description") == Some(b.operation)
            && "scsi0" in data && data["scsi0"] == Text(DiskText(b.storage, b.source))
            && TextAt(data, "net0") == Some(BridgeOpening() + b.bridge)
            && IsPayloadOf(data, b)
  {
  }

  // Every accepted body is the payload of a build in scope.
  lemma AllowedIsBuilt(data: Body, scope: Scope) returns (b: Build)
    requires RequestAllowed(data, scope)
    ensures InScope(b, scope) && data == VmCreatePayload(b)
  {
    hide MatchDisk, MatchVolume, UploadFilename, SplitAt, IsName, IsOperation, VmCreatePayload, WithoutPrefix,
         BridgeOpening, Folder, OperationPrefix;
    var disk := MatchDisk(data["scsi0"].s).value;
    var bridge := if TextAt(data, "net0").Some? then WithoutPrefix(data["net0"].s, BridgeOpening()) else "";
    b := Build(data["vmid"].n, data["name"].s, disk.storage, bridge, disk.source, data["description"].s);
    SameTypesEqual(data, VmCreatePayload(b));
    SourceIsUploaded(b, scope);
  }

  lemma SourceIsUploaded(b: Build, scope: Scope)
    requires SelectedImport(b.source, scope) && UploadFilename(b.vmid, b.operation).Some?
    requires var volume := SplitAt(b.source, ':');
             volume.Some? && volume.value.1 == Folder() + UploadFilename(b.vmid, b.operation).value
    ensures UploadedAt(b, scope, MatchVolume(b.source).value.storage)
    ensures 100 <= b.vmid <= 999999999
  {
    var volume := MatchVolume(b.source).value;
    var digest :| IsDigest(digest) && b.source == VolumeText(volume.storage, volume.vmid, digest);
    var mine := b.operation[|OperationPrefix()|..];
    assert IsDigest(mine);
    UploadedText(volume.storage, volume.vmid, digest);
    StorageHasNo(volume.storage);
    SplitAtJoin(volume.storage, ':', Folder() + (FilePrefix() + (PrintInt(volume.vmid) + ['-'] + digest) + FileSuffix()));
    SameFile(volume.vmid, digest, b.vmid, mine);
    hide VolumeOpening, FileSuffix, FilePrefix, Folder, MatchVolume, SplitAt, IsStorageText, IsDigest, VolumeText, PrintInt;
  }

  // A file name tells the machine and the digest.
  lemma SameFile(vmid: int, digest: string, other: int, second: string)
    requires IsDigest(digest) && IsDigest(second)
    requires Folder() + (FilePrefix() + (PrintInt(vmid) + ['-'] + digest) + FileSuffix())
             == Folder() + (FilePrefix() + (PrintInt(other) + ['-'] + second) + FileSuffix())
    ensures vmid == other && digest == second
  {
    var a := PrintInt(vmid) + ['-'] + digest;
    var b := PrintInt(other) + ['-'] + second;
    var x, y := FilePrefix() + a + FileSuffix(), FilePrefix() + b + FileSuffix();
    WithoutPrefixJoin(Folder(), x);
    WithoutPrefixJoin(Folder(), y);
    BetweenJoin(FilePrefix(), a, FileSuffix());
    BetweenJoin(FilePrefix(), b, FileSuffix());
    assert '-' !in digest && '-' !in second;
    hide FileSuffix, FilePrefix, Folder, PrintInt, WithoutPrefix, Between, IsDigest;
    JoinInjective(PrintInt(vmid), digest, PrintInt(other), second, '-');
    PrintIntInjective(vmid, other);
  }

  // The accepted bodies are exactly the payloads of builds in scope.
  lemma AllowedExactly(data: Body, scope: Scope)
    ensures RequestAllowed(data, scope) <==> exists b :: InScope(b, scope) && data == VmCreatePayload(b)
  {
    hide RequestAllowed, InScope, VmCreatePayload;
    if RequestAllowed(data, scope) { var b := AllowedIsBuilt(data, scope); }
    if b :| InScope(b, scope) && data == VmCreatePayload(b) { BuiltIsAllowed(b, scope); }
  }

  // Different builds have different payloads.
  lemma PayloadInjective(a: Build, b: Build)
    requires IsStorageText(a.storage) && IsStorageText(b.storage) && IsSourceText(a.source) && IsSourceText(b.source)
    requires VmCreatePayload(a) == VmCreatePayload(b)
    ensures a == b
  {
    PayloadFields(a);
    PayloadFields(b);
    MatchDiskJoin(a.storage, a.source);
    MatchDiskJoin(b.storage, b.source);
    WithoutPrefixJoin(BridgeOpening(), a.bridge);
    WithoutPrefixJoin(BridgeOpening(), b.bridge);
    hide MatchDisk, VmCreatePayload, BridgeOpening, WithoutPrefix, DiskText, IsPayloadOf, IsStorageText, IsSourceText;
  }

  // The source of a build in scope, character by character.
  predicate IsUpload(source: string, storage: string, vmid: int, digest: string) {
    source == storage + (":import/gjallar-image-" + (PrintInt(vmid) + "-" + digest) + ".qcow2")
  }

  lemma UploadedSource(b: Build, scope: Scope) returns (storage: string, digest: string)
    requires InScope(b, scope)
    ensures storage in scope.storages && IsDigest(digest) && b.operation == "vm-image-build-" + digest
    ensures IsUpload(b.source, storage, b.vmid, digest)
  {
    storage :| UploadedAt(b, scope, storage);
    digest := b.operation[|OperationPrefix()|..];
    UploadedText(storage, b.vmid, digest);
    hide IsDigest, PrintInt, IsName;
  }

  lemma PayloadKeys(b: Build)
    ensures VmCreatePayload(b).Keys == {"vmid", "name", "description", "cores", "memory", "ostype", "bios", "scsihw", "vga", "scsi0", "ide2",
                                        "net0", "boot", "agent", "onboot", "ipconfig0"}
  {
    hide DiskText, BridgeOpening;
  }

  lemma FixedFields(b: Build)
    ensures var data := VmCreatePayload(b);
            && {"cores", "memory", "ostype", "bios", "scsihw", "vga", "boot", "agent", "onboot", "ipconfig0"} <= data.Keys
            && data["cores"] == Num(2) && data["memory"] == Num(2048) && data["ostype"] == Text("l26") && data["bios"] == Text("seabios")
            && data["scsihw"] == Text("virtio-scsi-pci") && data["vga"] == Text("std") && data["boot"] == Text("order=scsi0")
            && data["agent"] == Text("enabled=1") && data["onboot"] == Num(0) && data["ipconfig0"] == Text("ip=dhcp")
  {
    hide DiskText, BridgeOpening;
  }

  lemma ChosenFields(b: Build)
    ensures var data := VmCreatePayload(b);
            && {"vmid", "name", "description", "scsi0", "ide2", "net0"} <= data.Keys
            && data["vmid"] == Num(b.vmid) && data["name"] == Text(b.name) && data["description"] == Text(b.operation)
            && data["scsi0"] == Text(b.storage + (":0,import-from=" + b.source + ",format=qcow2"))
            && data["ide2"] == Text(b.storage + ":cloudinit") && data["net0"] == Text("virtio,bridge=" + b.bridge)
  {
  }

  // An accepted request, field by field: the machine, its storage and its bridge are in scope, it
  // boots from the image uploaded for it by the operation it names, it does not start by itself,
  // and everything else is fixed.
  lemma AcceptedFields(data: Body, scope: Scope)
    requires RequestAllowed(data, scope)
    ensures data.Keys == {"vmid", "name", "description", "cores", "memory", "ostype", "bios", "scsihw", "vga", "scsi0", "ide2", "net0",
                          "boot", "agent", "onboot", "ipconfig0"}
    ensures data["vmid"].Num? && data["vmid"].n in scope.imageVmids && data["name"].Text? && IsName(data["name"].s)
    ensures data["cores"] == Num(2) && data["memory"] == Num(2048) && data["ostype"] == Text("l26") && data["bios"] == Text("seabios")
    ensures data["scsihw"] == Text("virtio-scsi-pci") && data["vga"] == Text("std") && data["boot"] == Text("order=scsi0")
    ensures data["agent"] == Text("enabled=1") && data["onboot"] == Num(0) && data["ipconfig0"] == Text("ip=dhcp")
    ensures exists storage, from, digest, source, bridge ::
              && storage in scope.storages && from in scope.storages && bridge in scope.bridges && IsDigest(digest)
              && IsUpload(source, from, data["vmid"].n, digest)
              && data["description"] == Text("vm-image-build-" + digest)
              && data["scsi0"] == Text(storage + (":0,import-from=" + source + ",format=qcow2"))
              && data["ide2"] == Text(storage + ":cloudinit") && data["net0"] == Text("virtio,bridge=" + bridge)
  {
    var b := AllowedIsBuilt(data, scope);
    var from, digest := UploadedSource(b, scope);
    PayloadKeys(b);
    FixedFields(b);
    ChosenFields(b);
    hide RequestAllowed, IsDigest, IsName, UploadedAt, IsUpload, VmCreatePayload, OperationPrefix;
  }

  // Equality alone would not do: a payload with a flag for its zero equals the payload and is
  // refused for its type.
  lemma FlagEqualsZero(b: Build, scope: Scope)
    ensures var data := VmCreatePayload(b)["onboot" := Flag(false)];
            EqualBodies(data, VmCreatePayload(b)) && !RequestAllowed(data, scope)
  {
    var data := VmCreatePayload(b)["onboot" := Flag(false)];
    PayloadKeys(b);
    FixedFields(b);
    hide VmCreatePayload, InScope;
    EqualExactly(0, false, 0.0, "", Num(0));
    hide RequestAllowed;
    if RequestAllowed(data, scope) { AcceptedFields(data, scope); }
  }
}
