/** Object keys of one cluster's snapshots: internal/store/layout.go. Times are nanoseconds,
    counted like Civil's seconds. */
module Layout {
  import opened Wrappers
  import opened Order
  import opened Text
  import opened Decimal
  import opened Civil

  const SECOND := 1_000_000_000
  const GENERATION_DIGITS := 10

  function TrimLeft(s: string): string {
    if s != "" && s[0] == '/' then TrimLeft(s[1..]) else s
  }

  function TrimRight(s: string): string {
    if s != "" && s[|s| - 1] == '/' then TrimRight(s[..|s| - 1]) else s
  }

  /** strings.Trim(s, "/") */
  function Trim(s: string): string {
    TrimRight(TrimLeft(s))
  }

  function AppendSegment(key: string, segment: string): string {
    if Trim(segment) == "" then key
    else if key == "" then Trim(segment)
    else key + "/" + Trim(segment)
  }

  /** Non-empty segments with single slashes between them. */
  function JoinKey(segments: seq<string>): string {
    if segments == [] then ""
    else AppendSegment(JoinKey(segments[..|segments| - 1]), segments[|segments| - 1])
  }

  predicate IsHex(s: string) {
    forall i :: 0 <= i < |s| ==> IsDigit(s[i]) || 'a' <= s[i] <= 'f'
  }

  function AfterColon(s: string): Option<string> {
    if s == "" then None
    else if s[0] == ':' then Some(s[1..])
    else AfterColon(s[1..])
  }

  /** The hash part of a key, or a placeholder for a checksum too short to give one. */
  function ShortHash(checksum: string): (hash: string)
    ensures |hash| == 8
  {
    var hex := match AfterColon(checksum) case Some(rest) => rest case None => checksum;
    if |hex| < 8 then "00000000" else hex[..8]
  }

  function NameText(stamp: string, generation: string, hash: string): string {
    stamp + ("-g" + (generation + ("-" + (hash + ".json"))))
  }

  function SnapshotName(second: nat, generation: nat, hash: string): string {
    NameText(Stamp(second), Padded(generation, GENERATION_DIGITS), hash)
  }

  datatype KeyLayout = KeyLayout(basePath: string, serverName: string, prefix: string) {
    function Root(): string {
      JoinKey([basePath, serverName, prefix])
    }

    function SnapshotsPrefix(): string {
      JoinKey([Root(), "snapshots"]) + "/"
    }

    function SnapshotKey(capturedAt: nat, generation: nat, checksum: string): string {
      SnapshotsPrefix() + SnapshotName(capturedAt / SECOND, generation, ShortHash(checksum))
    }

    function LatestKey(): string {
      JoinKey([Root(), "latest.json"])
    }
  }

  function AfterLastSlash(s: string): string {
    if s == "" || s[|s| - 1] == '/' then "" else AfterLastSlash(s[..|s| - 1]) + [s[|s| - 1]]
  }

  /** path.Base */
  function Base(key: string): string {
    if key == "" then "."
    else if TrimRight(key) == "" then "/"
    else AfterLastSlash(TrimRight(key))
  }

  /** The pattern of a snapshot's file name. */
  predicate SnapshotShaped(name: string) {
    && |name| == 42
    && StampShaped(name[..16]) && name[16..18] == "-g" && AllDigits(name[18..28]) && name[28] == '-'
    && IsHex(name[29..37]) && name[37..] == ".json"
  }

  datatype KeyParts = KeyParts(capturedAt: nat, generation: nat)

  function ParseName(name: string): Option<KeyParts> {
    if !SnapshotShaped(name) then None
    else match ParseStamp(name[..16])
      case None => None
      case Some(second) => Some(KeyParts(second * SECOND, Value(name[18..28])))
  }

  function ParseSnapshotKey(key: string): Option<KeyParts> {
    ParseName(Base(key))
  }

  /** No slash at either end. */
  predicate Neat(s: string) {
    s == "" || (s[0] != '/' && s[|s| - 1] != '/')
  }

  lemma {:induction false} TrimRightKeeps(s: string)
    ensures TrimRight(s) == "" || (s != "" && TrimRight(s)[0] == s[0])
    ensures TrimRight(s) == "" || TrimRight(s)[|TrimRight(s)| - 1] != '/'
  {
    if s != "" && s[|s| - 1] == '/' {
      TrimRightKeeps(s[..|s| - 1]);
    }
  }

  lemma {:induction false} TrimLeftStarts(s: string)
    ensures TrimLeft(s) == "" || TrimLeft(s)[0] != '/'
  {
    if s != "" && s[0] == '/' {
      TrimLeftStarts(s[1..]);
    }
  }

  lemma TrimIsNeat(s: string)
    ensures Neat(Trim(s))
    ensures Neat(s) ==> Trim(s) == s
  {
    TrimLeftStarts(s);
    TrimRightKeeps(TrimLeft(s));
  }

  lemma {:induction false} JoinKeyIsNeat(segments: seq<string>)
    ensures Neat(JoinKey(segments))
  {
    if segments != [] {
      JoinKeyIsNeat(segments[..|segments| - 1]);
      TrimIsNeat(segments[|segments| - 1]);
    }
  }

  lemma JoinTwo(a: string, b: string)
    requires Neat(a) && Neat(b) && b != ""
    ensures JoinKey([a, b]) == if a == "" then b else a + "/" + b
  {
    TrimIsNeat(a);
    TrimIsNeat(b);
    assert [a, b][..1] == [a] && [a][..0] == [];
    assert JoinKey([a]) == AppendSegment(JoinKey([]), a);
  }

  lemma JoinThree(a: string, b: string, c: string)
    requires Neat(b) && b != ""
    ensures JoinKey([a, b, c]) ==
            (if Trim(a) == "" then "" else Trim(a) + "/") + b + (if Trim(c) == "" then "" else "/" + Trim(c))
  {
    TrimIsNeat(b);
    assert [a, b, c][..2] == [a, b] && [a, b][..1] == [a] && [a][..0] == [];
    assert JoinKey([a]) == Trim(a);
    assert JoinKey([a, b]) == AppendSegment(Trim(a), b);
    assert JoinKey([a, b, c]) == AppendSegment(JoinKey([a, b]), c);
  }

  /** The pointer is not among the keys a listing of the snapshots returns. */
  lemma LatestKeyApart(l: KeyLayout)
    ensures !(l.SnapshotsPrefix() <= l.LatestKey())
  {
    var root := l.Root();
    JoinKeyIsNeat([l.basePath, l.serverName, l.prefix]);
    JoinTwo(root, "snapshots");
    JoinTwo(root, "latest.json");
    var head := if root == "" then "" else root + "/";
    var listed, pointer := l.SnapshotsPrefix(), l.LatestKey();
    assert listed == head + "snapshots/" && pointer == head + "latest.json";
    assert listed[|head|] == 's' && pointer[|head|] == 'l';
  }

  /** Two servers' snapshots lie apart: listing one never returns a key of the other. */
  lemma ServersApart(l: KeyLayout, other: string)
    requires l.serverName != "" && SlashFree(l.serverName)
    requires other != "" && SlashFree(other) && other != l.serverName
    ensures !(l.SnapshotsPrefix() <= l.(serverName := other).SnapshotsPrefix())
  {
    var m := l.(serverName := other);
    var rest := (if Trim(l.prefix) == "" then "" else "/" + Trim(l.prefix)) + "/" + "snapshots/";
    var head := if Trim(l.basePath) == "" then "" else Trim(l.basePath) + "/";
    PrefixForm(l, head, rest);
    PrefixForm(m, head, rest);
    DistinctFields(head, l.serverName, other, rest);
  }

  lemma DistinctFields(head: string, s: string, s': string, rest: string)
    requires SlashFree(s) && SlashFree(s') && s != s' && rest != "" && rest[0] == '/'
    ensures !(head + s + rest <= head + s' + rest)
  {
    var a, b := head + s + rest, head + s' + rest;
    if |s| == |s'| {
      var i :| 0 <= i < |s| && s[i] != s'[i];
      assert a[|head| + i] == s[i] && b[|head| + i] == s'[i];
    } else if |s| < |s'| {
      assert a[|head| + |s|] == '/' && b[|head| + |s|] == s'[|s|];
    } else {
      assert a[|head| + |s'|] == s[|s'|] && b[|head| + |s'|] == '/';
    }
  }

  lemma PrefixForm(l: KeyLayout, head: string, rest: string)
    requires l.serverName != "" && SlashFree(l.serverName)
    requires head == if Trim(l.basePath) == "" then "" else Trim(l.basePath) + "/"
    requires rest == (if Trim(l.prefix) == "" then "" else "/" + Trim(l.prefix)) + "/" + "snapshots/"
    ensures l.SnapshotsPrefix() == head + l.serverName + rest
  {
    JoinThree(l.basePath, l.serverName, l.prefix);
    JoinKeyIsNeat([l.basePath, l.serverName, l.prefix]);
    PrefixParts(l, l.Root(), head, if Trim(l.prefix) == "" then "" else "/" + Trim(l.prefix), rest);
  }

  lemma PrefixParts(l: KeyLayout, root: string, head: string, tail: string, rest: string)
    requires root == l.Root() && Neat(root) && root != "" && root == head + l.serverName + tail
    requires rest == tail + "/" + "snapshots/"
    ensures l.SnapshotsPrefix() == head + l.serverName + rest
  {
    JoinTwo(root, "snapshots");
    assert root + "/" + "snapshots" + "/" == head + l.serverName + (tail + "/" + "snapshots/");
  }

  lemma {:induction false} BaseOf(dir: string, name: string)
    requires name != "" && SlashFree(name)
    ensures AfterLastSlash(dir + "/" + name) == name
    decreases |name|
  {
    var s, front := dir + "/" + name, name[..|name| - 1];
    assert s[..|s| - 1] == dir + "/" + front;
    if front == "" {
      assert dir + "/" + front == dir + "/";
    } else {
      BaseOf(dir, front);
    }
    assert name == front + [name[|name| - 1]];
  }

  lemma BaseBeneath(dir: string, name: string)
    requires name != "" && SlashFree(name)
    ensures Base(dir + "/" + name) == name
  {
    var s := dir + "/" + name;
    assert s[|s| - 1] == name[|name| - 1];
    BaseOf(dir, name);
  }

  lemma NameFields(stamp: string, g: string, hash: string)
    requires |stamp| == 16 && |g| == 10 && |hash| == 8
    ensures var s := NameText(stamp, g, hash);
            && |s| == 42 && s[..16] == stamp && s[16..18] == "-g" && s[18..28] == g && s[28] == '-'
            && s[29..37] == hash && s[37..] == ".json"
  {
    var s := NameText(stamp, g, hash);
    assert s[..16] == stamp && s[16..18] == "-g" && s[18..28] == g && s[29..37] == hash && s[37..] == ".json";
  }

  /** Names read back, to the second. */
  lemma NameParses(second: nat, generation: nat, hash: string)
    requires FourDigitYear(second) && generation < Power(GENERATION_DIGITS) && |hash| == 8 && IsHex(hash)
    ensures ParseName(SnapshotName(second, generation, hash)) == Some(KeyParts(second * SECOND, generation))
  {
    StampParses(second);
    PaddedReadsBack(generation, GENERATION_DIGITS);
    NameFields(Stamp(second), Padded(generation, GENERATION_DIGITS), hash);
  }

  lemma {:induction false} ShapedIsSlashFree(name: string)
    requires SnapshotShaped(name)
    ensures SlashFree(name)
  {
    forall i | 0 <= i < |name| ensures name[i] != '/' {
      if i < 16 {
        assert name[i] == name[..16][i];
        if i != 8 && i != 15 {
          assert i < 8 ==> name[..16][..8][i] == name[i];
          assert i > 8 ==> name[..16][9..15][i - 9] == name[i];
        }
      } else if i < 18 {
        assert name[i] == name[16..18][i - 16];
      } else if i < 28 {
        assert name[i] == name[18..28][i - 18];
      } else if 28 < i < 37 {
        assert name[i] == name[29..37][i - 29];
      } else if 37 <= i {
        assert name[i] == name[37..][i - 37];
      }
    }
  }

  /** ParseSnapshotKey inverts SnapshotKey up to whole seconds. */
  lemma KeyRoundTrip(l: KeyLayout, at: nat, generation: nat, checksum: string)
    requires FourDigitYear(at / SECOND) && generation < Power(GENERATION_DIGITS) && IsHex(ShortHash(checksum))
    ensures ParseSnapshotKey(l.SnapshotKey(at, generation, checksum))
            == Some(KeyParts(at / SECOND * SECOND, generation))
  {
    var name := SnapshotName(at / SECOND, generation, ShortHash(checksum));
    NameParses(at / SECOND, generation, ShortHash(checksum));
    ShapedIsSlashFree(name);
    BaseBeneath(JoinKey([l.Root(), "snapshots"]), name);
    assert l.SnapshotKey(at, generation, checksum) == JoinKey([l.Root(), "snapshots"]) + "/" + name;
  }

  function HashOf(name: string): string
    requires SnapshotShaped(name)
  {
    name[29..37]
  }

  lemma NameSplit(name: string)
    requires |name| == 42 && name[16..18] == "-g" && name[28] == '-' && name[37..] == ".json"
    ensures name == NameText(name[..16], name[18..28], name[29..37])
  {
    assert name == name[..16] + (name[16..18] + (name[18..28] + ([name[28]] + (name[29..37] + name[37..]))));
    assert [name[28]] == "-";
  }

  /** A name that parses is the name of what it parses to. */
  lemma ParsedNameIsCanonical(name: string, second: nat)
    requires SnapshotShaped(name) && ParseStamp(name[..16]) == Some(second)
    ensures FourDigitYear(second) && Value(name[18..28]) < Power(GENERATION_DIGITS)
    ensures name == SnapshotName(second, Value(name[18..28]), HashOf(name))
  {
    var stamp, g, hash := name[..16], name[18..28], name[29..37];
    ParsedStampIsCanonical(stamp);
    ValueBound(g);
    DigitsArePadded(g);
    NameSplit(name);
  }

  /** The order of captures: by second, then generation, then hash. */
  predicate Earlier(a: KeyParts, ha: string, b: KeyParts, hb: string) {
    || a.capturedAt < b.capturedAt
    || (a.capturedAt == b.capturedAt && (a.generation < b.generation || (a.generation == b.generation && Less(ha, hb))))
  }

  lemma TextOrder(s: string, g: string, h: string, s': string, g': string, h': string)
    requires |s| == |s'| && |g| == |g'| && |h| == |h'|
    ensures Less(NameText(s, g, h), NameText(s', g', h')) <==>
            Less(s, s') || (s == s' && (Less(g, g') || (g == g' && Less(h, h'))))
  {
    LessConcat(s, "-g" + (g + ("-" + (h + ".json"))), s', "-g" + (g' + ("-" + (h' + ".json"))));
    LessSamePrefix("-g", g + ("-" + (h + ".json")), g' + ("-" + (h' + ".json")));
    LessConcat(g, "-" + (h + ".json"), g', "-" + (h' + ".json"));
    LessSamePrefix("-", h + ".json", h' + ".json");
    LessConcat(h, ".json", h', ".json");
    LessIrreflexive(".json");
  }

  lemma NameOrder(a: string, b: string)
    requires ParseName(a).Some? && ParseName(b).Some?
    ensures Less(a, b) <==> Earlier(ParseName(a).value, HashOf(a), ParseName(b).value, HashOf(b))
  {
    NameSplit(a);
    NameSplit(b);
    TextOrder(a[..16], a[18..28], a[29..37], b[..16], b[18..28], b[29..37]);
    ParsedStampsOrder(a[..16], b[..16]);
    DigitsOrder(a[18..28], b[18..28]);
  }

  /** The order of keys is the order of captures, for every pair of keys directly beneath the
      snapshots prefix that a listing keeps. Nothing is assumed of who wrote them. */
  lemma KeyOrder(l: KeyLayout, na: string, nb: string)
    requires ParseName(na).Some? && ParseName(nb).Some?
    ensures ParseSnapshotKey(l.SnapshotsPrefix() + na) == ParseName(na)
    ensures Less(l.SnapshotsPrefix() + na, l.SnapshotsPrefix() + nb) <==>
            Earlier(ParseName(na).value, HashOf(na), ParseName(nb).value, HashOf(nb))
  {
    NameOrder(na, nb);
    LessSamePrefix(l.SnapshotsPrefix(), na, nb);
    ShapedIsSlashFree(na);
    BaseBeneath(JoinKey([l.Root(), "snapshots"]), na);
  }

  /** Where a snapshot lies, part by part. */
  lemma KeyReads(l: KeyLayout, capturedAt: nat, generation: nat, checksum: string)
    requires l.serverName != "" && SlashFree(l.serverName)
    ensures var head := if Trim(l.basePath) == "" then "" else Trim(l.basePath) + "/";
            var tail := if Trim(l.prefix) == "" then "" else "/" + Trim(l.prefix);
            && l.SnapshotKey(capturedAt, generation, checksum) ==
               head + l.serverName + (tail + "/" + "snapshots/")
               + (Stamp(capturedAt / SECOND)
                  + ("-g" + (Padded(generation, 10) + ("-" + (ShortHash(checksum) + ".json")))))
            && l.LatestKey() == head + l.serverName + tail + "/" + "latest.json"
  {
    var head := if Trim(l.basePath) == "" then "" else Trim(l.basePath) + "/";
    var tail := if Trim(l.prefix) == "" then "" else "/" + Trim(l.prefix);
    PrefixForm(l, head, tail + "/" + "snapshots/");
    JoinThree(l.basePath, l.serverName, l.prefix);
    JoinKeyIsNeat([l.basePath, l.serverName, l.prefix]);
    JoinTwo(l.Root(), "latest.json");
  }

  /** What is trimmed off is slashes, and none is left at either end. */
  lemma TrimReads(s: string) returns (left: string, right: string)
    ensures s == left + Trim(s) + right && Neat(Trim(s))
    ensures forall i :: 0 <= i < |left| ==> left[i] == '/'
    ensures forall i :: 0 <= i < |right| ==> right[i] == '/'
  {
    TrimIsNeat(s);
    left := TrimmedLeft(s);
    right := TrimmedRight(TrimLeft(s));
  }

  lemma {:induction false} TrimmedLeft(s: string) returns (left: string)
    ensures s == left + TrimLeft(s) && forall i :: 0 <= i < |left| ==> left[i] == '/'
  {
    left := "";
    if s != "" && s[0] == '/' {
      left := TrimmedLeft(s[1..]);
      left := "/" + left;
    }
  }

  lemma {:induction false} TrimmedRight(s: string) returns (right: string)
    ensures s == TrimRight(s) + right && forall i :: 0 <= i < |right| ==> right[i] == '/'
  {
    right := "";
    if s != "" && s[|s| - 1] == '/' {
      right := TrimmedRight(s[..|s| - 1]);
      right := right + "/";
    }
  }

  /** The hash of a key: the first eight digits after the algorithm's name, which may be missing; zeros
      for a checksum too short to have them. */
  lemma {:induction false} HashReads(algorithm: string, hex: string)
    requires ':' !in algorithm
    ensures AfterColon(algorithm + ":" + hex) == Some(hex) && (':' !in hex ==> AfterColon(hex) == None)
    ensures ShortHash(algorithm + ":" + hex) == if |hex| < 8 then "00000000" else hex[..8]
    ensures ':' !in hex ==> ShortHash(hex) == if |hex| < 8 then "00000000" else hex[..8]
    decreases |algorithm|
  {
    NoColon(hex);
    var s := algorithm + ":" + hex;
    if algorithm != "" {
      HashReads(algorithm[1..], hex);
      assert s[1..] == algorithm[1..] + ":" + hex;
      assert s[0] == algorithm[0];
    }
  }

  lemma {:induction false} NoColon(hex: string)
    ensures ':' !in hex ==> AfterColon(hex) == None
  {
    if hex != "" {
      NoColon(hex[1..]);
    }
  }
}
