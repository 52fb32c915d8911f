/**
  The master key file: its line format and parser, and the crash-safe ways it is written
  (internal/crypto/keyfile.go).
*/
module Keyfile {
  import opened Basics
  import opened Base64
  import opened AtomicFiles

  const KeySize := 32
  const Marker := "ODDK-SECRET-MASTER-KEY"
  const Version := "V1"
  const BackupSuffix := ".pre-v1"

  type Key = seq<Byte>

  /** The first four bytes of SHA-256 over a text, of which nothing else is needed. */
  datatype Quad = Quad(a: Byte, b: Byte, c: Byte, d: Byte)
  type Sum = string -> Quad

  datatype Parsed =
    | Key(key: Key, legacy: bool)
    | Empty | WrongFieldCount | UnknownVersion | BadChecksum | NotBase64 | WrongSize

  // ---- Text ---------------------------------------------------------------------------

  predicate IsSpace(c: char)
  {
    || c == '\t' || c == '\n' || c == '\r' || c == ' ' || c as int == 11 || c as int == 12
    || c as int == 0x85 || c as int == 0xA0
    || c as int == 0x1680 || 0x2000 <= c as int <= 0x200A || c as int == 0x2028 || c as int == 0x2029
    || c as int == 0x202F || c as int == 0x205F || c as int == 0x3000
  }

  function TrimSpace(s: string): string
    decreases |s|
  {
    if s == "" then ""
    else if IsSpace(s[0]) then TrimSpace(s[1..])
    else if IsSpace(s[|s| - 1]) then TrimSpace(s[..|s| - 1])
    else s
  }

  function HexDigit(v: int): char
    requires 0 <= v < 16
  {
    if v < 10 then '0' + v as char else 'a' + (v - 10) as char
  }

  function HexByte(b: Byte): string
  {
    [HexDigit(b / 16), HexDigit(b % 16)]
  }

  function Checksum(sum: Sum, payload: string): string
  {
    var q := sum(payload);
    HexByte(q.a) + HexByte(q.b) + HexByte(q.c) + HexByte(q.d)
  }

  /** Case folding as far as it matters against hexadecimal digits. */
  function Fold(c: char): char
  {
    if 'A' <= c <= 'Z' then c + ('a' - 'A') else c
  }

  predicate EqualFold(s: string, t: string)
  {
    |s| == |t| && forall i | 0 <= i < |s| :: Fold(s[i]) == Fold(t[i])
  }

  // ---- Printer and parser -------------------------------------------------------------

  function Line(payload: string, checksum: string): string
  {
    Marker + ";" + Version + ";" + payload + ";" + checksum
  }

  function EncodeKeyFile(sum: Sum, key: Key): string
  {
    Line(Encode(key), Checksum(sum, Encode(key))) + "\n"
  }

  function DecodePayload(payload: string, legacy: bool): Parsed
  {
    match Decode(payload)
    case None => NotBase64
    case Some(key) => if |key| == KeySize then Key(key, legacy) else WrongSize
  }

  function ParseKeyFile(sum: Sum, raw: string): Parsed
  {
    var text := TrimSpace(raw);
    if text == "" then Empty
    else if !(Marker + ";" <= text) then DecodePayload(text, true)
    else
      var parts := Split(text, ';');
      if |parts| != 4 then WrongFieldCount
      else if parts[1] != Version then UnknownVersion
      else if !EqualFold(parts[3], Checksum(sum, parts[2])) then BadChecksum
      else DecodePayload(parts[2], false)
  }

  // ---- They undo each other -----------------------------------------------------------

  predicate OneField(s: string)
  {
    ';' !in s
  }

  /** The line splits into its four fields whatever they are, as long as none holds a ';'. */
  lemma SplitLine(payload: string, checksum: string)
    requires OneField(payload) && OneField(checksum)
    ensures Split(Line(payload, checksum), ';') == [Marker, Version, payload, checksum]
  {
    var l2 := payload + ";" + checksum;
    var l1 := Version + ";" + l2;
    assert Line(payload, checksum) == Marker + ";" + l1;
    hide Split;
    SplitField(Marker, ';', l1);
    SplitField(Version, ';', l2);
    SplitField(payload, ';', checksum);
    SplitWithout(checksum, ';');
  }

  /** A text with no space at either end is left alone. */
  lemma TrimNothing(s: string)
    requires s != "" && !IsSpace(s[0]) && !IsSpace(s[|s| - 1])
    ensures TrimSpace(s) == s && TrimSpace(s + "\n") == s
  {
    assert (s + "\n")[..|s|] == s;
  }

  /** How a V1 line is read: checksum first, payload second, and the payload not at all if the checksum is off. */
  lemma ParseLine(sum: Sum, payload: string, checksum: string)
    requires OneField(payload) && OneField(checksum) && checksum != "" && !IsSpace(checksum[|checksum| - 1])
    ensures ParseKeyFile(sum, Line(payload, checksum)) ==
      if EqualFold(checksum, Checksum(sum, payload)) then DecodePayload(payload, false) else BadChecksum
    ensures ParseKeyFile(sum, Line(payload, checksum) + "\n") == ParseKeyFile(sum, Line(payload, checksum))
  {
    var l := Line(payload, checksum);
    assert l[|l| - 1] == checksum[|checksum| - 1];
    TrimNothing(l);
    assert l[..|Marker| + 1] == Marker + ";";
    SplitLine(payload, checksum);
  }

  lemma HexDistinguishes(x: Byte, y: Byte)
    ensures EqualFold(HexByte(x), HexByte(y)) <==> x == y
    ensures |HexByte(x)| == |HexByte(y)| == 2 && OneField(HexByte(x)) && !IsSpace(HexByte(x)[1])
  {
    var s, t := HexByte(x), HexByte(y);
    assert EqualFold(s, t) <==> Fold(s[0]) == Fold(t[0]) && Fold(s[1]) == Fold(t[1]);
    assert Fold(s[0]) == Fold(t[0]) <==> x / 16 == y / 16;
    assert Fold(s[1]) == Fold(t[1]) <==> x % 16 == y % 16;
  }

  lemma EqualFoldAppend(a: string, b: string, s: string, t: string)
    requires |a| == |b|
    ensures EqualFold(a + s, b + t) <==> EqualFold(a, b) && EqualFold(s, t)
  {
    var x, y := a + s, b + t;
    if EqualFold(x, y) {
      assert forall i | 0 <= i < |a| :: Fold(x[i]) == Fold(a[i]) && Fold(y[i]) == Fold(b[i]);
      forall i | 0 <= i < |s| ensures Fold(s[i]) == Fold(t[i]) {
        assert s[i] == x[|a| + i] && t[i] == y[|a| + i];
      }
    }
  }

  lemma ChecksumDistinguishes(sum: Sum, p: string, q: string)
    ensures EqualFold(Checksum(sum, p), Checksum(sum, q)) <==> sum(p) == sum(q)
    ensures OneField(Checksum(sum, p)) && |Checksum(sum, p)| == 8 && !IsSpace(Checksum(sum, p)[7])
  {
    var x, y := sum(p), sum(q);
    HexDistinguishes(x.a, y.a);
    HexDistinguishes(x.b, y.b);
    HexDistinguishes(x.c, y.c);
    HexDistinguishes(x.d, y.d);
    hide HexByte, EqualFold, IsSpace;
    EqualFoldAppend(HexByte(x.a) + HexByte(x.b) + HexByte(x.c), HexByte(y.a) + HexByte(y.b) + HexByte(y.c),
                    HexByte(x.d), HexByte(y.d));
    EqualFoldAppend(HexByte(x.a) + HexByte(x.b), HexByte(y.a) + HexByte(y.b), HexByte(x.c), HexByte(y.c));
    EqualFoldAppend(HexByte(x.a), HexByte(y.a), HexByte(x.b), HexByte(y.b));
  }

  /**
    A V1 line whose payload was damaged is rejected as corrupt exactly if the damage shows in
    the four checksum bytes, whatever the payload would decode to.
  */
  lemma DamageDetected(sum: Sum, payload: string, damaged: string)
    requires OneField(damaged)
    ensures ParseKeyFile(sum, Line(damaged, Checksum(sum, payload))) ==
      if sum(damaged) == sum(payload) then DecodePayload(damaged, false) else BadChecksum
  {
    ChecksumDistinguishes(sum, payload, damaged);
    ParseLine(sum, damaged, Checksum(sum, payload));
  }

  lemma EncodedIsPlain(key: Key)
    ensures OneField(Encode(key)) && forall i | 0 <= i < |Encode(key)| :: !IsSpace(Encode(key)[i])
    ensures |key| == KeySize ==> |Encode(key)| == 44
  {
    EncodePlain(key);
    forall i | 0 <= i < |Encode(key)| ensures Encode(key)[i] != ';' && !IsSpace(Encode(key)[i]) {
      assert Plain(Encode(key)[i]);
    }
  }

  lemma RoundTripV1(sum: Sum, key: Key)
    requires |key| == KeySize
    ensures ParseKeyFile(sum, EncodeKeyFile(sum, key)) == Key(key, false)
  {
    var payload := Encode(key);
    var checksum := Checksum(sum, payload);
    EncodedIsPlain(key);
    ChecksumDistinguishes(sum, payload, payload);
    ParseLine(sum, payload, checksum);
    RoundTrip(key);
  }

  lemma RoundTripLegacy(sum: Sum, key: Key)
    requires |key| == KeySize
    ensures ParseKeyFile(sum, Encode(key)) == Key(key, true)
    ensures ParseKeyFile(sum, Encode(key) + "\n") == Key(key, true)
  {
    var text := Encode(key);
    EncodedIsPlain(key);
    TrimNothing(text);
    assert text[|Marker|] != ';' && (Marker + ";")[|Marker|] == ';';
    RoundTrip(key);
  }

  lemma ParsedSize(sum: Sum, raw: string)
    ensures ParseKeyFile(sum, raw).Key? ==> |ParseKeyFile(sum, raw).key| == 32
  {
  }

  /** Checksums are written in lower-case hexadecimal digits, most significant first. */
  lemma HexIsANumber(b: Byte)
    ensures "0123456789abcdef"[b / 16] == HexByte(b)[0] && "0123456789abcdef"[b % 16] == HexByte(b)[1]
  {
  }

  /** The code points with Unicode's White_Space property. */
  const SpaceCodes := {
    9, 10, 11, 12, 13, 32, 0x85, 0xA0, 0x1680, 0x2000, 0x2001, 0x2002, 0x2003, 0x2004, 0x2005, 0x2006, 0x2007,
    0x2008, 0x2009, 0x200A, 0x2028, 0x2029, 0x202F, 0x205F, 0x3000}

  lemma SpacesAreListed(c: char)
    ensures IsSpace(c) <==> c as int in SpaceCodes
  {
  }

  lemma FoldsLetters(i: int)
    requires 0 <= i < 26
    ensures Fold("ABCDEFGHIJKLMNOPQRSTUVWXYZ"[i]) == "abcdefghijklmnopqrstuvwxyz"[i]
    ensures Fold("abcdefghijklmnopqrstuvwxyz"[i]) == "abcdefghijklmnopqrstuvwxyz"[i]
  {
    var upper, lower := "ABCDEFGHIJKLMNOPQRSTUVWXYZ", "abcdefghijklmnopqrstuvwxyz";
    assert forall j | 0 <= j < 26 :: upper[j] == 'A' + j as char;
    assert forall j | 0 <= j < 26 :: lower[j] == 'a' + j as char;
  }

  lemma NoSpaceAround()
    ensures !IsSpace('O') && !IsSpace(';')
  {
  }

  lemma DecodesAsTold()
    ensures forall payload, legacy ::
      && !DecodePayload(payload, legacy).WrongFieldCount? && !DecodePayload(payload, legacy).UnknownVersion?
      && (DecodePayload(payload, legacy).Key? ==> DecodePayload(payload, legacy).legacy == legacy)
  {
  }

  /** A text that begins with the marker is never taken for a bare key, however it goes on. */
  lemma MarkedIsNeverLegacy(sum: Sum, rest: string)
    requires rest != "" ==> !IsSpace(rest[|rest| - 1])
    ensures
      var parsed := ParseKeyFile(sum, Marker + ";" + rest);
      && (parsed.Key? ==> !parsed.legacy)
      && (|Split(rest, ';')| != 3 <==> parsed.WrongFieldCount?)
      && (|Split(rest, ';')| == 3 ==> (Split(rest, ';')[0] != Version <==> parsed.UnknownVersion?))
  {
    hide DecodePayload, EqualFold, Checksum, Split, IsSpace;
    var text := Marker + ";" + rest;
    NoSpaceAround();
    DecodesAsTold();
    assert text[0] == 'O' && text[..|Marker| + 1] == Marker + ";";
    assert text[|text| - 1] == if rest == "" then ';' else rest[|rest| - 1];
    TrimNothing(text);
    SplitField(Marker, ';', rest);
  }

  // ---- Files --------------------------------------------------------------------------

  /** This file reads back as the key, and survives a power cut. */
  predicate Holds(sum: Sum, file: Stored<string>, key: Key)
  {
    file.synced && Reads(sum, file, key)
  }

  predicate Reads(sum: Sum, file: Stored<string>, key: Key)
  {
    var p := ParseKeyFile(sum, file.content);
    p.Key? && p.key == key
  }

  function Holding(sum: Sum, key: Key): Stored<string> -> bool
  {
    (file: Stored<string>) => Holds(sum, file, key)
  }

  /** The key is proved readable in the temporary file before that replaces anything. */
  method WriteKeyFile(d: Folder<string>, tmp: string, path: string, sum: Sum, key: Key) returns (ok: bool)
    requires tmp !in d.files && tmp != path
    modifies d
    ensures AtomicAlong(d, old(d.seen), old(d.files), tmp, path, Holding(sum, key))
    ensures ok ==> path in d.files && Holds(sum, d.files[path], key) && d.files == old(d.files)[path := d.files[path]]
    ensures !ok ==> d.files - {tmp} == old(d.files) && (d.stuck == old(d.stuck) ==> d.files == old(d.files))
    // Without faults the file is written, and holds just what the key encodes to.
    ensures d.faults >= old(d.faults) && d.stuck >= old(d.stuck)
    ensures d.faults == old(d.faults) && |key| == KeySize ==>
      ok && d.stuck == old(d.stuck) && d.files[path] == Stored(EncodeKeyFile(sum, key), true)
  {
    hide EncodeKeyFile, ParseKeyFile;
    hide AtomicAlong, Staging;
    ghost var files0, seen0, sound := d.files, d.seen, Holding(sum, key);
    Unstaged(d, tmp, path, sound);
    ok := false;
    var created := d.Attempt();
    if !created { return; }
    Stage(d, tmp, Stored("", false), path, sound, files0, seen0);
    var text := EncodeKeyFile(sum, key);
    var written := CutShort(d, text);
    Stage(d, tmp, Stored(written, false), path, sound, files0, seen0);
    var synced := d.Attempt();             // chmod, write, sync and close
    if synced {
      Stage(d, tmp, Stored(written, true), path, sound, files0, seen0);
      var readable := d.Attempt();
      if |key| == KeySize { RoundTripV1(sum, key); }
      var p := ParseKeyFile(sum, written);
      if readable && p.Key? && p.key == key {
        ok := Install(d, tmp, path, sound, files0, seen0);
      }
    }
    if !ok { var _ := Discard(d, tmp, path, sound, files0, seen0); }
    Staged(d, seen0, files0, tmp, path, sound);
  }

  /** What reaches the file: a write can be cut short without an error. */
  method CutShort(d: Folder<string>, text: string) returns (written: string)
    modifies d`faults
    ensures d.faults >= old(d.faults) && (d.faults == old(d.faults) ==> written == text)
    ensures written <= text
  {
    var whole := d.Attempt();
    var n := *;
    written := if !whole && 0 <= n <= |text| then text[..n] else text;
  }

  // ---- The one-way upgrade ------------------------------------------------------------

  /**
    At every crash point the key file reads as the key, and once it is no longer the old
    file, the backup holds exactly the text an old binary wrote for that key.
  */
  ghost predicate UpgradePoint(sum: Sum, files0: Files<string>, files: Files<string>, path: string, key: Key)
  {
    && path in files && Reads(sum, files[path], key)
    && (SameAt(path, files0, files)
        || (path + BackupSuffix in files && files[path + BackupSuffix].content == Encode(key)))
  }

  ghost predicate UpgradeAlong(d: Folder<string>, seen0: set<Files<string>>, sum: Sum, files0: Files<string>,
      path: string, key: Key)
    reads d`files, d`seen
  {
    seen0 <= d.seen && forall s | s in d.seen && s !in seen0 :: UpgradePoint(sum, files0, s, path, key)
  }

  /** Written in place, not atomically, and read back; it is never synced. */
  method WriteLegacyBackup(d: Folder<string>, path: string, content: string, sum: Sum, ghost key: Key,
      ghost seen0: set<Files<string>>)
    returns (ok: bool)
    requires path in d.files && Reads(sum, d.files[path], key) && UpgradeAlong(d, seen0, sum, d.files, path, key)
    modifies d
    ensures SameAt(path, old(d.files), d.files) && UpgradeAlong(d, seen0, sum, old(d.files), path, key)
    ensures ok ==> path + BackupSuffix in d.files && d.files[path + BackupSuffix] == Stored(content, false)
    ensures forall name | name != path + BackupSuffix :: SameAt(name, old(d.files), d.files)
    ensures d.faults >= old(d.faults) && d.stuck == old(d.stuck) && (!ok ==> d.faults > old(d.faults))
  {
    hide ParseKeyFile;
    var backup := path + BackupSuffix;
    assert |backup| > |path|;
    ok := false;
    var openable := d.Attempt();
    if !openable { return; }
    var written := CutShort(d, content);
    d.Put(backup, Stored(written, false));
    var readable := d.Attempt();           // write, chmod and read back
    ok := readable && written == content;
  }

  /** What a safe replacement of the key file passes through, once the backup is in place. */
  lemma ReplacementIsUpgrade(sum: Sum, files0: Files<string>, files1: Files<string>, s: Files<string>, tmp: string,
      path: string, key: Key)
    requires path in files0 && Reads(sum, files0[path], key) && SameAt(path, files0, files1)
    requires path + BackupSuffix in files1 && files1[path + BackupSuffix].content == Encode(key)
    requires tmp != path + BackupSuffix && Atomic(files1, s, tmp, path, Holding(sum, key))
    ensures UpgradePoint(sum, files0, s, path, key)
  {
    hide ParseKeyFile;
    var backup := path + BackupSuffix;
    assert |backup| > |path|;
    assert backup in s - {tmp, path} && (s - {tmp, path})[backup] == (files1 - {tmp, path})[backup];
  }

  /** What the log says about an upgrade. */
  datatype Rewrite = Skipped | NotPreserved | NotWritten | Rewritten

  /** The new file, and beside it the text an old binary wrote for the same key. */
  ghost predicate Upgraded(sum: Sum, files: Files<string>, path: string, key: Key)
  {
    && path in files && files[path] == Stored(EncodeKeyFile(sum, key), true)
    && path + BackupSuffix in files && files[path + BackupSuffix] == Stored(Encode(key), false)
  }

  /** A read-only key is left alone, and so is one whose rollback copy could not be made. */
  method UpgradeKeyFile(d: Folder<string>, tmp: string, path: string, sum: Sum, key: Key, readOnly: bool)
    returns (r: Rewrite)
    requires path in d.files && Reads(sum, d.files[path], key)
    requires tmp !in d.files && tmp != path && tmp != path + BackupSuffix
    modifies d
    ensures UpgradeAlong(d, old(d.seen), sum, old(d.files), path, key)
    ensures UpgradePoint(sum, old(d.files), d.files, path, key)
    ensures readOnly ==> d.files == old(d.files)
    ensures forall name | name !in {tmp, path, path + BackupSuffix} :: SameAt(name, old(d.files), d.files)
    ensures d.faults >= old(d.faults) && d.stuck >= old(d.stuck) && (r.Skipped? <==> readOnly)
    // A backup without a new file is taken away again.
    ensures r.NotWritten? && d.stuck == old(d.stuck) ==>
      path + BackupSuffix !in d.files && SameAt(path, old(d.files), d.files)
    ensures !readOnly && d.faults == old(d.faults) && |key| == KeySize ==>
      r.Rewritten? && Upgraded(sum, d.files, path, key)
  {
    hide ParseKeyFile, EncodeKeyFile;
    if readOnly { return Skipped; }
    ghost var files0, seen0 := d.files, d.seen;
    var backup := path + BackupSuffix;
    assert |backup| > |path|;
    var kept := WriteLegacyBackup(d, path, Encode(key), sum, key, seen0);
    if !kept { return NotPreserved; }
    assert SameAt(tmp, files0, d.files);
    ghost var files1, seen1 := d.files, d.seen;
    var upgraded := WriteKeyFile(d, tmp, path, sum, key);
    forall s | s in d.seen && s !in seen0 ensures UpgradePoint(sum, files0, s, path, key) {
      if s !in seen1 { ReplacementIsUpgrade(sum, files0, files1, s, tmp, path, key); }
    }
    r := if upgraded then Rewritten else NotWritten;
    if !upgraded {
      SameWithout(d.files, files1, tmp);
      var _ := d.Remove(backup);
    }
    forall name | name !in {tmp, path, backup} ensures SameAt(name, files0, d.files) {
      assert SameAt(name, files0, files1) && SameAt(name, files1, d.files);
    }
  }

  lemma SameWithout(files: Files<string>, files1: Files<string>, tmp: string)
    requires files - {tmp} == files1
    ensures forall name | name != tmp :: SameAt(name, files1, files)
  {
    forall name | name != tmp ensures SameAt(name, files1, files) {
      assert name in files <==> name in files - {tmp};
      assert name in files ==> (files - {tmp})[name] == files[name];
    }
  }

  /**
    `newKey` is the random key to use if there is none yet; `usable` that the file is no
    symlink and has safe permissions.
  */
  method GetOrCreateKeyFile(d: Folder<string>, tmp: string, path: string, sum: Sum, newKey: Key, usable: bool,
      readOnly: bool)
    returns (r: Option<Key>)
    requires tmp !in d.files && tmp != path && tmp != path + BackupSuffix && |newKey| == KeySize
    modifies d
    // An existing key is never lost, at any crash point, and is what is returned.
    ensures path in old(d.files) && ParseKeyFile(sum, old(d.files)[path].content).Key? ==>
      var key := ParseKeyFile(sum, old(d.files)[path].content).key;
      && UpgradeAlong(d, old(d.seen), sum, old(d.files), path, key) && path in d.files && Reads(sum, d.files[path], key)
      && (r.Some? ==> r.value == key)
    // What cannot be read is left as it is.
    ensures path in old(d.files) && !ParseKeyFile(sum, old(d.files)[path].content).Key? ==>
      r.None? && d.files == old(d.files)
    ensures r.Some? ==> path in d.files && Reads(sum, d.files[path], r.value)
    ensures path in old(d.files) && !usable ==> r.None? && d.files == old(d.files)
    // Without faults: the key that is there, in the new format if that is allowed, or the new one.
    ensures d.faults == old(d.faults) && path !in old(d.files) ==>
      r == Some(newKey) && d.files == old(d.files)[path := Stored(EncodeKeyFile(sum, newKey), true)]
    ensures d.faults == old(d.faults) && path in old(d.files) && usable ==>
      match ParseKeyFile(sum, old(d.files)[path].content)
      case Key(key, legacy) =>
        r == Some(key) && if legacy && !readOnly then Upgraded(sum, d.files, path, key) else d.files == old(d.files)
      case _ => r.None?
  {
    r := None;
    if path in d.files {
      var readable := d.Attempt();
      if !usable || !readable { return; }
      ParsedSize(sum, d.files[path].content);
      match ParseKeyFile(sum, d.files[path].content) {
        case Key(key, legacy) =>
          hide ParseKeyFile;
          if legacy { var _ := UpgradeKeyFile(d, tmp, path, sum, key, readOnly); }
          r := Some(key);
        case _ =>
      }
      return;
    }
    hide ParseKeyFile;
    var written := WriteKeyFile(d, tmp, path, sum, newKey);
    if written { r := Some(newKey); }
  }
}
