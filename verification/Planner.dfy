/** Turning a file and a shard into the assignment message of one sender. */
module Planner {
  import opened Outcomes
  import opened Domain
  import opened Wire
  import opened Planning
  import Binary64

  const FILE_HASH_HEX_LENGTH := 64
  const UNSET_SENDER_BPS_LIMIT := 0

  datatype PlannerError =
    | NegativeSize(size: int)
    | HashLength(length: nat)
    | HashNotHex
    | OutsideWatchRoot
    | EscapesWatchRoot
    | UncountableBlocks(cause: ArithmeticError)
    | ModulusBelowOne(modulus: int)
    | IndexOutOfRange(index: int, modulus: int)

  // Hexadecimal text, as bytes.fromhex reads it: white space is skipped between bytes.

  function Digit(c: char): Option<int> {
    if '0' <= c <= '9' then Some(c as int - '0' as int)
    else if 'a' <= c <= 'f' then Some(c as int - 'a' as int + 10)
    else if 'A' <= c <= 'F' then Some(c as int - 'A' as int + 10)
    else None
  }

  predicate IsSpace(c: char) { c in " \t\n\r" || c as int == 11 || c as int == 12 }

  function FromHex(text: string): Option<seq<int>> {
    if text == "" then Some([])
    else if IsSpace(text[0]) then FromHex(text[1..])
    else if |text| == 1 || Digit(text[0]).None? || Digit(text[1]).None? then None
    else
      match FromHex(text[2..])
      case Some(rest) => Some([16 * Digit(text[0]).value + Digit(text[1]).value] + rest)
      case None => None
  }

  lemma {:induction false} HexLength(text: string)
    requires FromHex(text).Some?
    ensures var bytes := FromHex(text).value;
      2 * |bytes| <= |text| && (2 * |bytes| == |text| <==> forall c :: c in text ==> !IsSpace(c))
  {
    if text == "" {
    } else if IsSpace(text[0]) {
      assert text[0] in text;
      HexLength(text[1..]);
    } else {
      HexLength(text[2..]);
      assert forall c :: c in text <==> c == text[0] || c == text[1] || c in text[2..];
    }
  }

  // Writing bytes as hexadecimal text, two digits a byte, in lower or upper case.

  type Byte = b: int | 0 <= b < 256

  function HexDigit(v: int, upper: bool): char
    requires 0 <= v < 16
  {
    if upper then "0123456789ABCDEF"[v] else "0123456789abcdef"[v]
  }

  function HexText(bytes: seq<Byte>, upper: bool): string
  {
    if bytes == [] then ""
    else [HexDigit(bytes[0] / 16, upper), HexDigit(bytes[0] % 16, upper)] + HexText(bytes[1..], upper)
  }

  lemma DigitOfHexDigit(v: int, upper: bool)
    requires 0 <= v < 16
    ensures Digit(HexDigit(v, upper)) == Some(v) && !IsSpace(HexDigit(v, upper))
  {
  }

  /** Reading the hexadecimal text of bytes gives the bytes back. */
  lemma {:induction false} HexRoundTrip(bytes: seq<Byte>, upper: bool)
    ensures |HexText(bytes, upper)| == 2 * |bytes|
    ensures FromHex(HexText(bytes, upper)) == Some(bytes)
  {
    hide Digit, HexDigit, IsSpace;
    if bytes != [] {
      HexRoundTrip(bytes[1..], upper);
      assert bytes[0] in bytes;
      DigitOfHexDigit(bytes[0] / 16, upper);
      DigitOfHexDigit(bytes[0] % 16, upper);
      var text := HexText(bytes, upper);
      assert text[2..] == HexText(bytes[1..], upper);
      assert bytes == [bytes[0]] + bytes[1..];
    }
  }

  /** A character that is neither a hexadecimal digit nor white space is never accepted. */
  lemma {:induction false} HexRefuses(text: string, i: nat)
    requires i < |text| && Digit(text[i]) == None && !IsSpace(text[i])
    ensures FromHex(text) == None
  {
    if IsSpace(text[0]) {
      HexRefuses(text[1..], i - 1);
    } else if i >= 2 {
      HexRefuses(text[2..], i - 2);
    }
  }

  // Lexical paths

  // What the path library keeps of every path's components: only the first one may be the root, and the
  // others are not empty and hold no separator.
  predicate Canonical(path: Path) {
    forall i :: 0 <= i < |path| ==> (i == 0 && path[i] == "/") || (path[i] != "" && '/' !in path[i])
  }

  predicate Absolute(path: Path) { path != [] && path[0] == "/" }

  // The components of path below root, if it lies under root; nothing absolute lies under the empty path.
  function RelativeTo(path: Path, root: Path): Option<Path> {
    if root <= path && (Absolute(path) ==> Absolute(root)) then Some(path[|root|..]) else None
  }

  function AsPosix(path: Path): string {
    if path == [] then "."
    else if path[0] == "/" then "/" + Joined(path[1..])
    else Joined(path)
  }

  function Joined(components: Path): string {
    if components == [] then ""
    else if |components| == 1 then components[0]
    else components[0] + "/" + Joined(components[1..])
  }

  // How a receiver reads a file name back: the components between separators.
  function Components(text: string): (components: seq<string>)
    ensures components != []
  {
    if text == "" then [""]
    else if text[0] == '/' then [""] + Components(text[1..])
    else
      var rest := Components(text[1..]);
      [[text[0]] + rest[0]] + rest[1..]
  }

  lemma {:induction false} FirstComponent(name: string, rest: string)
    requires '/' !in name
    ensures Components(name) == [name]
    ensures Components(name + "/" + rest) == [name] + Components(rest)
  {
    if name == "" {
      assert name + "/" + rest == "/" + rest;
      assert ("/" + rest)[1..] == rest;
    } else {
      var tail := name[1..];
      FirstComponent(tail, rest);
      assert (name + "/" + rest)[1..] == tail + "/" + rest;
      assert name == [name[0]] + tail;
    }
  }

  lemma {:induction false} JoinedSplits(names: seq<string>)
    requires names != [] && forall name :: name in names ==> '/' !in name
    ensures Components(Joined(names)) == names
  {
    assert names[0] in names;
    if |names| == 1 {
      FirstComponent(names[0], "");
    } else {
      JoinedSplits(names[1..]);
      FirstComponent(names[0], Joined(names[1..]));
    }
  }

  // Manifests

  // The first check a source file fails. None of them looks at the shard.
  function SourceError(source: SourceFile, fec: FecParams, watchRoot: Path): Option<PlannerError>
    requires fec.BlockSize() > 0
  {
    if source.sizeBytes < 0 then Some(NegativeSize(source.sizeBytes))
    else if |source.fileHash| != FILE_HASH_HEX_LENGTH then Some(HashLength(|source.fileHash|))
    else if FromHex(source.fileHash).None? then Some(HashNotHex)
    else if RelativeTo(source.path, watchRoot).None? then Some(OutsideWatchRoot)
    else if ".." in RelativeTo(source.path, watchRoot).value then Some(EscapesWatchRoot)
    else match CalculateBlockCount(source.sizeBytes, fec)
      case Success(_) => None
      case Failure(cause) => Some(UncountableBlocks(cause))
  }

  function ShardError(senderIndex: int, shardModulus: int): Option<PlannerError> {
    if shardModulus < 1 then Some(ModulusBelowOne(shardModulus))
    else if !(0 <= senderIndex < shardModulus) then Some(IndexOutOfRange(senderIndex, shardModulus))
    else None
  }

  function ManifestFields(
      source: SourceFile, fec: FecParams, sessionId: SessionId, senderIndex: int, watchRoot: Path, senderBpsLimit: int): Manifest
    requires fec.BlockSize() > 0 && SourceError(source, fec, watchRoot).None?
  {
    Manifest(
      sessionId, AsPosix(RelativeTo(source.path, watchRoot).value), source.sizeBytes, FromHex(source.fileHash).value,
      fec.k, fec.n, fec.symbolBytes, CalculateBlockCount(source.sizeBytes, fec).value, senderIndex, senderBpsLimit)
  }

  function Built(
      source: SourceFile, fec: FecParams, sessionId: SessionId, senderIndex: int, shardModulus: int, watchRoot: Path,
      senderBpsLimit: int): Result<Manifest, PlannerError>
    requires fec.BlockSize() > 0
  {
    match SourceError(source, fec, watchRoot)
    case Some(error) => Failure(error)
    case None => match ShardError(senderIndex, shardModulus)
      case Some(error) => Failure(error)
      case None => Success(ManifestFields(source, fec, sessionId, senderIndex, watchRoot, senderBpsLimit))
  }

  // A manifest under construction, its fields set one after the other.
  class ManifestMessage {
    var fields: Manifest

    constructor (fields: Manifest)
      ensures this.fields == fields
    {
      this.fields := fields;
    }
  }

  method ApplyShard(manifest: ManifestMessage, senderIndex: int, shardModulus: int) returns (error: Option<PlannerError>)
    modifies manifest
    ensures error == ShardError(senderIndex, shardModulus)
    ensures error == None <==> 0 <= senderIndex < shardModulus
    ensures error == Some(ModulusBelowOne(shardModulus)) <==> shardModulus < 1
    ensures manifest.fields == if error.None? then old(manifest.fields).(senderId := senderIndex) else old(manifest.fields)
  {
    if shardModulus < 1 { return Some(ModulusBelowOne(shardModulus)); }
    if !(0 <= senderIndex < shardModulus) { return Some(IndexOutOfRange(senderIndex, shardModulus)); }
    manifest.fields := manifest.fields.(senderId := senderIndex);
    return None;
  }

  method BuildManifest(
      source: SourceFile, fec: FecParams, sessionId: SessionId, senderIndex: int, shardModulus: int, watchRoot: Path,
      senderBpsLimit: int := UNSET_SENDER_BPS_LIMIT)
    returns (r: Result<Manifest, PlannerError>)
    requires fec.BlockSize() > 0
    ensures r == Built(source, fec, sessionId, senderIndex, shardModulus, watchRoot, senderBpsLimit)
    ensures r.Success? ==> r.value.k == fec.k && r.value.n == fec.n && r.value.blockBytes == fec.symbolBytes
    ensures r.Success? ==> r.value.sessionId == sessionId && r.value.fileSize == source.sizeBytes && r.value.senderId == senderIndex
    ensures r.Success? ==> r.value.senderBpsLimit == senderBpsLimit && CalculateBlockCount(source.sizeBytes, fec) == Success(r.value.totalBlocks)
  {
    hide CalculateBlockCount;
    if source.sizeBytes < 0 { return Failure(NegativeSize(source.sizeBytes)); }
    if |source.fileHash| != FILE_HASH_HEX_LENGTH { return Failure(HashLength(|source.fileHash|)); }
    var fileHash := FromHex(source.fileHash);
    if fileHash.None? { return Failure(HashNotHex); }
    var relativePath := RelativeTo(source.path, watchRoot);
    if relativePath.None? { return Failure(OutsideWatchRoot); }
    if ".." in relativePath.value { return Failure(EscapesWatchRoot); }
    var totalBlocks := CalculateBlockCount(source.sizeBytes, fec);
    if totalBlocks.Failure? { return Failure(UncountableBlocks(totalBlocks.error)); }
    var manifest := new ManifestMessage(Manifest(
      sessionId, AsPosix(relativePath.value), source.sizeBytes, fileHash.value,
      fec.k, fec.n, fec.symbolBytes, totalBlocks.value, 0, senderBpsLimit));
    var error := ApplyShard(manifest, senderIndex, shardModulus);
    if error.Some? { return Failure(error.value); }
    return Success(manifest.fields);
  }

  function BuildAssignSession(
      manifest: Manifest, shardModulus: int, targetHost: string, targetPort: int, sourcePath: string): AssignSession
  {
    AssignSession(manifest, shardModulus, targetHost, targetPort, sourcePath)
  }

  /** What a built manifest says: the shape of the code and the size of a symbol, the file's size, its number
      of blocks, the session, the shard and the rate limit, each under its own name; and the hash as bytes, when
      it was given as their hexadecimal text in either case. */
  lemma {:induction false} BuiltFields(
      source: SourceFile, fec: FecParams, sessionId: SessionId, senderIndex: int, shardModulus: int, watchRoot: Path,
      senderBpsLimit: int, bytes: seq<Byte>, upper: bool)
    requires fec.BlockSize() > 0 && Built(source, fec, sessionId, senderIndex, shardModulus, watchRoot, senderBpsLimit).Success?
    ensures var m := Built(source, fec, sessionId, senderIndex, shardModulus, watchRoot, senderBpsLimit).value;
      && m.k == fec.k && m.n == fec.n && m.blockBytes == fec.symbolBytes
      && m.sessionId == sessionId && m.fileSize == source.sizeBytes && m.senderId == senderIndex && m.senderBpsLimit == senderBpsLimit
      && CalculateBlockCount(source.sizeBytes, fec) == Success(m.totalBlocks)
      && (source.fileHash == HexText(bytes, upper) ==> m.fileHash == bytes && |bytes| == 32)
  {
    hide CalculateBlockCount, FromHex, HexText;
    HexRoundTrip(bytes, upper);
  }

  /** Exactly which files are accepted for a session: a size of at least 0, a hash of 64 characters that reads
      as hexadecimal, a path below the watched directory that does not climb out, and a countable size. */
  lemma {:induction false} AcceptedIff(source: SourceFile, fec: FecParams, watchRoot: Path)
    requires fec.BlockSize() > 0
    ensures SourceError(source, fec, watchRoot) == None <==>
      (source.sizeBytes >= 0 && |source.fileHash| == 64 && FromHex(source.fileHash).Some?
       && CalculateBlockCount(source.sizeBytes, fec).Success? && LiesBelow(source.path, watchRoot))
  {
    hide CalculateBlockCount, FromHex;
    if LiesBelow(source.path, watchRoot) {
      var below: Path :| source.path == watchRoot + below && ".." !in below && (Absolute(source.path) ==> Absolute(watchRoot));
      assert source.path[|watchRoot|..] == below;
    }
    if SourceError(source, fec, watchRoot) == None {
      assert source.path == watchRoot + source.path[|watchRoot|..];
    }
  }

  ghost predicate LiesBelow(path: Path, root: Path) {
    exists below: Path :: path == root + below && ".." !in below && (Absolute(path) ==> Absolute(root))
  }

  /** No ordinary file is refused: with a checked configuration every file below 2^53 bytes in the watched
      directory, with the hexadecimal text of a 32-byte hash, is accepted for every shard. */
  lemma {:induction false} OrdinaryFileAccepted(
      source: SourceFile, fec: FecParams, watchRoot: Path, below: Path, bytes: seq<Byte>, upper: bool, sessionId: SessionId,
      senderIndex: int, shardModulus: int)
    requires fec.Validated() && 0 <= source.sizeBytes < Binary64.TWO_TO_THE_53
    requires |bytes| == 32 && source.fileHash == HexText(bytes, upper)
    requires source.path == watchRoot + below && ".." !in below && Absolute(watchRoot) && 0 <= senderIndex < shardModulus
    ensures fec.BlockSize() > 0
    ensures Built(source, fec, sessionId, senderIndex, shardModulus, watchRoot, UNSET_SENDER_BPS_LIMIT).Success?
  {
    hide CalculateBlockCount, FromHex, HexText;
    BlockCountExact(source.sizeBytes, fec);
    HexRoundTrip(bytes, upper);
    assert LiesBelow(source.path, watchRoot);
    AcceptedIff(source, fec, watchRoot);
  }

  /** Which error a refused file gets: that of the first check it fails. */
  lemma {:induction false} FirstErrorDecides(source: SourceFile, fec: FecParams, watchRoot: Path)
    requires fec.BlockSize() > 0
    ensures var size, hash, error := source.sizeBytes, source.fileHash, SourceError(source, fec, watchRoot);
      && (error == Some(NegativeSize(size)) <==> size < 0)
      && (error == Some(HashLength(|hash|)) <==> size >= 0 && |hash| != 64)
      && (error == Some(HashNotHex) <==> size >= 0 && |hash| == 64 && FromHex(hash) == None)
      && (error == Some(OutsideWatchRoot) <==> size >= 0 && |hash| == 64 && FromHex(hash).Some? && !IsBelow(source.path, watchRoot))
      && (error == Some(EscapesWatchRoot) ==> IsBelow(source.path, watchRoot) && !LiesBelow(source.path, watchRoot))
      && (error.Some? && error.value.UncountableBlocks? ==>
           CalculateBlockCount(size, fec) == Failure(error.value.cause) && LiesBelow(source.path, watchRoot))
  {
    hide CalculateBlockCount, FromHex;
    if IsBelow(source.path, watchRoot) {
      var below: Path :| source.path == watchRoot + below && (Absolute(source.path) ==> Absolute(watchRoot));
      assert source.path[|watchRoot|..] == below;
    }
    if RelativeTo(source.path, watchRoot).Some? { assert source.path == watchRoot + source.path[|watchRoot|..]; }
    forall below: Path | source.path == watchRoot + below ensures source.path[|watchRoot|..] == below { }
  }

  ghost predicate IsBelow(path: Path, root: Path) {
    exists below: Path :: path == root + below && (Absolute(path) ==> Absolute(root))
  }

  /** An absolute path is sent with its leading separator, and reads back as its components. */
  lemma {:induction false} AbsolutePathText(path: Path)
    requires Canonical(path) && Absolute(path)
    ensures AsPosix(path) != "" && AsPosix(path)[0] == '/'
    ensures |path| > 1 ==> Components(AsPosix(path)[1..]) == path[1..]
    ensures |path| == 1 ==> AsPosix(path) == "/"
  {
    hide Joined, Components;
    if |path| > 1 {
      forall name | name in path[1..] ensures '/' !in name {
        var i :| 0 <= i < |path[1..]| && path[1..][i] == name;
        assert path[i + 1] == name;
      }
      JoinedSplits(path[1..]);
    } else {
      NothingJoined();
    }
  }

  lemma NothingJoined()
    ensures Joined([]) == ""
  {
  }

  /** The file name in the manifest, read back by a receiver, names the file's place below the watched
      directory: it is not empty, not absolute, and no component of it climbs out. */
  lemma {:induction false} AcceptedPathStaysInside(
      source: SourceFile, fec: FecParams, sessionId: SessionId, senderIndex: int, shardModulus: int, watchRoot: Path,
      senderBpsLimit: int)
    requires Canonical(source.path)
    requires fec.BlockSize() > 0 && Built(source, fec, sessionId, senderIndex, shardModulus, watchRoot, senderBpsLimit).Success?
    ensures var name := Built(source, fec, sessionId, senderIndex, shardModulus, watchRoot, senderBpsLimit).value.filepath;
      && name != "" && name[0] != '/' && ".." !in Components(name)
      && (source.path == watchRoot + Components(name) || (source.path == watchRoot && name == "."))
  {
    hide CalculateBlockCount, FromHex, Joined, Components;
    var below := source.path[|watchRoot|..];
    assert RelativeTo(source.path, watchRoot) == Some(below);
    assert source.path == watchRoot + below;
    BelowIsPlain(source.path, watchRoot);
    if below == [] { FirstComponent(".", ""); } else { JoinedSplits(below); JoinedStart(below); }
  }

  lemma BelowIsPlain(path: Path, root: Path)
    requires Canonical(path) && RelativeTo(path, root).Some?
    ensures forall name :: name in RelativeTo(path, root).value ==> name != "" && '/' !in name
  {
    var below := path[|root|..];
    forall i | 0 <= i < |below| ensures below[i] != "" && '/' !in below[i] { assert below[i] == path[|root| + i]; }
  }

  lemma JoinedStart(names: seq<string>)
    requires names != [] && names[0] != ""
    ensures Joined(names) != "" && Joined(names)[0] == names[0][0]
  {
  }

  /** Sixty-four characters are thirty-two bytes unless some of them are white space, which is accepted. */
  lemma {:induction false} AcceptedHashLength(
      source: SourceFile, fec: FecParams, sessionId: SessionId, senderIndex: int, shardModulus: int, watchRoot: Path,
      senderBpsLimit: int)
    requires fec.BlockSize() > 0 && Built(source, fec, sessionId, senderIndex, shardModulus, watchRoot, senderBpsLimit).Success?
    ensures var hash := Built(source, fec, sessionId, senderIndex, shardModulus, watchRoot, senderBpsLimit).value.fileHash;
      |hash| <= 32 && (|hash| == 32 <==> forall c :: c in source.fileHash ==> !IsSpace(c))
  {
    hide CalculateBlockCount, FromHex;
    HexLength(source.fileHash);
  }

  function Blanks(n: nat): string { seq(n, i => ' ') }

  lemma {:induction false} BlankHex(n: nat)
    ensures FromHex(Blanks(n)) == Some([])
  {
    if n > 0 {
      assert Blanks(n)[1..] == Blanks(n - 1);
      BlankHex(n - 1);
    }
  }

  /** The length check does not catch white space: a hash of 64 blanks is accepted as no bytes at all. */
  lemma {:induction false} BlankHashAccepted()
    returns (source: SourceFile, fec: FecParams, watchRoot: Path)
    ensures fec.BlockSize() > 0 && |source.fileHash| == FILE_HASH_HEX_LENGTH
    ensures Built(source, fec, "", 0, 1, watchRoot, UNSET_SENDER_BPS_LIMIT).Success?
    ensures Built(source, fec, "", 0, 1, watchRoot, UNSET_SENDER_BPS_LIMIT).value.fileHash == []
  {
    hide CalculateBlockCount, FromHex, Blanks, Joined;
    watchRoot := ["/", "watched"];
    fec := FecParams(1, 2, 1);
    source := SourceFile(["/", "watched", "file"], 0, Blanks(FILE_HASH_HEX_LENGTH));
    BlanksLength(FILE_HASH_HEX_LENGTH);
    BlankHex(FILE_HASH_HEX_LENGTH);
    BlockCountExact(0, fec);
    assert RelativeTo(source.path, watchRoot) == Some(["file"]);
    assert SourceError(source, fec, watchRoot) == None;
  }

  lemma BlanksLength(n: nat)
    ensures |Blanks(n)| == n
  {
  }

  /** In a session the shards are refused together, for the same reason, or accepted together, and then
      their manifests differ in nothing but the residue. */
  lemma {:induction false} AllOrNothing(
      source: SourceFile, fec: FecParams, sessionId: SessionId, watchRoot: Path, totalBlocks: int, senders: seq<SenderId>,
      basePort: int, i: nat, j: nat)
    requires fec.BlockSize() > 0 && i < |senders| && j < |senders|
    ensures
      var a, b := Deal(totalBlocks, senders, basePort)[i], Deal(totalBlocks, senders, basePort)[j];
      var m := Built(source, fec, sessionId, a.shardResidue, a.shardModulus, watchRoot, UNSET_SENDER_BPS_LIMIT);
      var n := Built(source, fec, sessionId, b.shardResidue, b.shardModulus, watchRoot, UNSET_SENDER_BPS_LIMIT);
      if m.Failure? then n == m && SourceError(source, fec, watchRoot) == Some(m.error)
      else n.Success? && n.value == m.value.(senderId := j) && m.value.senderId == i
  {
    hide CalculateBlockCount, FromHex;
  }
}
