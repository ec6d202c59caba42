/**
 * The snapshot on its way from the controller to the datapath: printed by serialize_snapshot, read by parse_snapshot.
 *
 * `inet_pton` is a parameter: two functions from address texts to addresses.
 */
module SnapshotText {
  import opened Common
  import opened Decimal
  import opened Hints
  import opened Scanner
  import Prefix

  const MAX_SUBJECTS := 1024
  const MAX_POLICY_ENTRIES := 8192
  const MAX_FLOWS := 16384
  const MAX_PORT_HINTS := 1024
  const MAX_PREFIX_HINTS := 4096

  datatype ConfigLine = ConfigLine(
    enabled: bool, enforcement: bool, policyGen: nat, classifierGen: nat, unknownVerdict: Verdict,
    provisionalVerdict: Verdict, packets: nat, bytes: nat, ageMs: nat, pending: nat, perSecond: nat, perSubject: nat)

  datatype SubjectEntry = SubjectEntry(mac: seq<nat>, id: nat)

  datatype PolicyEntry = PolicyEntry(subject: nat, classId: nat, verdict: Verdict)

  datatype PortEntry = PortEntry(protocol: nat, port: nat, hint: Hint)

  /** A prefix as compiled: still the text of the configuration or observation. */
  datatype PrefixText = PrefixText(text: string, hint: Hint)

  datatype Prefix4 = Prefix4(address: bv32, length: nat, hint: Hint)

  /** An IPv6 prefix entry by the 128 bits of its address. */
  datatype Prefix6 = Prefix6(bits: seq<bool>, length: nat, hint: Hint)

  /** What the controller serializes. */
  datatype Compiled = Compiled(config: ConfigLine, selectors: seq<SubjectEntry>, policies: seq<PolicyEntry>,
                               ports: seq<PortEntry>, prefixes4: seq<PrefixText>, prefixes6: seq<PrefixText>)

  /** What the parser builds. */
  datatype Snapshot = Snapshot(config: Option<ConfigLine>, subjects: seq<SubjectEntry>, policies: seq<PolicyEntry>,
                               ports: seq<PortEntry>, v4: seq<Prefix4>, v6: seq<Prefix6>)

  function Empty(): Snapshot {
    Snapshot(None, [], [], [], [], [])
  }

  type Pton4 = string -> Option<bv32>
  type Pton6 = string -> Option<seq<bool>>

  // ----- Numbers of enumerations -----

  function VerdictNumber(v: Verdict): (n: nat)
    ensures n <= 1
  {
    if v == Deny then 1 else 0
  }

  function VerdictOfNumber(n: nat): Verdict {
    if n == 1 then Deny else Allow
  }

  function Flag(b: bool): (n: nat)
    ensures n <= 1
  {
    if b then 1 else 0
  }

  function KindNumber(k: HintKind): (n: nat)
    ensures n <= 3
  {
    match k
    case NoKind => 0
    case ExactKind => 1
    case CategoryKind => 2
    case UnclassifiedKind => 3
  }

  // ----- Printing -----

  function HexChar(d: nat): char
    requires d < 16
  {
    if d < 10 then ('0' as int + d) as char else ('a' as int + (d - 10)) as char
  }

  function HexByte(b: nat): string
    requires b < 256
  {
    [HexChar(b / 16), HexChar(b % 16)]
  }

  predicate MacBytes(mac: seq<nat>) {
    |mac| == 6 && forall i :: 0 <= i < 6 ==> mac[i] < 256
  }

  function MacText(mac: seq<nat>): (s: string)
    requires MacBytes(mac)
    ensures |s| == 17 && Spaceless(s)
  {
    HexByte(mac[0]) + ":" + HexByte(mac[1]) + ":" + HexByte(mac[2]) + ":" + HexByte(mac[3]) + ":" + HexByte(mac[4]) + ":"
    + HexByte(mac[5])
  }

  function ConfigNumbers(c: ConfigLine): seq<nat> {
    [Flag(c.enabled), Flag(c.enforcement), c.policyGen, c.classifierGen, VerdictNumber(c.unknownVerdict),
     VerdictNumber(c.provisionalVerdict), c.packets, c.bytes, c.ageMs, c.pending, c.perSecond, c.perSubject]
  }

  function HintNumbers(h: Hint): seq<nat> {
    [h.classId, h.categoryId, KindNumber(h.kind)]
  }

  function ConfigText(c: ConfigLine): string {
    "CONFIG" + Numbers(ConfigNumbers(c))
  }

  function SubjectText(e: SubjectEntry): string
    requires MacBytes(e.mac)
  {
    "SUBJECT" + " " + MacText(e.mac) + Numbers([e.id])
  }

  function PolicyText(e: PolicyEntry): string {
    "POLICY" + Numbers([e.subject, e.classId, VerdictNumber(e.verdict)])
  }

  function PortText(e: PortEntry): string {
    "PORT" + Numbers([e.protocol, e.port, e.hint.classId, e.hint.categoryId, KindNumber(e.hint.kind)])
  }

  function PrefixLine(command: string, e: PrefixText): string {
    command + " " + e.text + Numbers(HintNumbers(e.hint))
  }

  predicate PrintableSubjects(es: seq<SubjectEntry>) {
    forall i :: 0 <= i < |es| ==> MacBytes(es[i].mac)
  }

  function SubjectTexts(es: seq<SubjectEntry>): seq<string>
    requires PrintableSubjects(es)
  {
    if es == [] then [] else SubjectTexts(es[..|es| - 1]) + [SubjectText(es[|es| - 1])]
  }

  function PolicyTexts(es: seq<PolicyEntry>): seq<string> {
    if es == [] then [] else PolicyTexts(es[..|es| - 1]) + [PolicyText(es[|es| - 1])]
  }

  function PortTexts(es: seq<PortEntry>): seq<string> {
    if es == [] then [] else PortTexts(es[..|es| - 1]) + [PortText(es[|es| - 1])]
  }

  function PrefixLines(command: string, es: seq<PrefixText>): seq<string> {
    if es == [] then [] else PrefixLines(command, es[..|es| - 1]) + [PrefixLine(command, es[|es| - 1])]
  }

  function SnapshotLines(c: Compiled): seq<string>
    requires PrintableSubjects(c.selectors)
  {
    [ConfigText(c.config)] + SubjectTexts(c.selectors) + PolicyTexts(c.policies) + PortTexts(c.ports)
    + PrefixLines("PREFIX4", c.prefixes4) + PrefixLines("PREFIX6", c.prefixes6)
  }

  /** serialize_snapshot: the lines, pushed section by section, joined and ended by newlines. */
  method Serialize(c: Compiled) returns (text: string)
    requires PrintableSubjects(c.selectors)
    ensures text == Joined(SnapshotLines(c))
  {
    var lines := PushSubjects([ConfigText(c.config)], c.selectors);
    lines := PushPolicies(lines, c.policies);
    lines := PushPorts(lines, c.ports);
    lines := PushPrefixes(lines, "PREFIX4", c.prefixes4);
    lines := PushPrefixes(lines, "PREFIX6", c.prefixes6);
    text := Joined(lines);
  }

  method PushSubjects(before: seq<string>, es: seq<SubjectEntry>) returns (lines: seq<string>)
    requires PrintableSubjects(es)
    ensures lines == before + SubjectTexts(es)
  {
    lines := before;
    for i := 0 to |es|
      invariant lines == before + SubjectTexts(es[..i])
    {
      assert es[..i + 1][..i] == es[..i];
      lines := lines + [SubjectText(es[i])];
    }
    assert es[..|es|] == es;
  }

  method PushPolicies(before: seq<string>, es: seq<PolicyEntry>) returns (lines: seq<string>)
    ensures lines == before + PolicyTexts(es)
  {
    lines := before;
    for i := 0 to |es|
      invariant lines == before + PolicyTexts(es[..i])
    {
      assert es[..i + 1][..i] == es[..i];
      lines := lines + [PolicyText(es[i])];
    }
    assert es[..|es|] == es;
  }

  method PushPorts(before: seq<string>, es: seq<PortEntry>) returns (lines: seq<string>)
    ensures lines == before + PortTexts(es)
  {
    lines := before;
    for i := 0 to |es|
      invariant lines == before + PortTexts(es[..i])
    {
      assert es[..i + 1][..i] == es[..i];
      lines := lines + [PortText(es[i])];
    }
    assert es[..|es|] == es;
  }

  method PushPrefixes(before: seq<string>, command: string, es: seq<PrefixText>) returns (lines: seq<string>)
    ensures lines == before + PrefixLines(command, es)
  {
    lines := before;
    for i := 0 to |es|
      invariant lines == before + PrefixLines(command, es[..i])
    {
      assert es[..i + 1][..i] == es[..i];
      lines := lines + [PrefixLine(command, es[i])];
    }
    assert es[..|es|] == es;
  }

  // ----- Parsing -----

  /** parse_hint */
  function ParseHint(classId: nat, categoryId: nat, kind: nat): Option<Hint> {
    if kind == 3 && classId == CLASS_UNCLASSIFIED && categoryId == 0 then Some(Hint(classId, 0, UnclassifiedKind))
    else if classId <= CLASS_UNCLASSIFIED || classId > 65535 || categoryId > 65535 || (kind != 1 && kind != 2) then None
    else if kind == 2 && categoryId != classId then None
    else Some(Hint(classId, categoryId, if kind == 1 then ExactKind else CategoryKind))
  }

  function HexValue(c: char): Option<nat> {
    if '0' <= c <= '9' then Some(c as int - '0' as int)
    else if 'a' <= c <= 'f' then Some(c as int - 'a' as int + 10)
    else if 'A' <= c <= 'F' then Some(c as int - 'A' as int + 10)
    else None
  }

  /** `%2x`: one or two hexadecimal digits. */
  function ScanHex(s: string): Scanned<nat> {
    if s == "" || HexValue(s[0]).None? then Failed
    else if |s| == 1 || HexValue(s[1]).None? then Got(HexValue(s[0]).value, s[1..])
    else Got(HexValue(s[0]).value * 16 + HexValue(s[1]).value, s[2..])
  }

  /** The rest of parse_mac from byte `i` on. */
  function ScanMac(s: string, i: nat): Option<seq<nat>>
    requires i < 6
    decreases 6 - i
  {
    match ScanHex(s)
    case Failed => None
    case Got(b, rest) =>
      if i == 5 then Some([b])
      else if rest == "" || rest[0] != ':' then None
      else
        var others := ScanMac(rest[1..], i + 1);
        if others.None? then None else Some([b] + others.value)
  }

  /** The part of `s` before the first slash, and the part after it. */
  function AtSlash(s: string): Option<(string, string)> {
    if s == "" then None
    else if s[0] == '/' then Some(("", s[1..]))
    else
      var r := AtSlash(s[1..]);
      if r.None? then None else Some(([s[0]] + r.value.0, r.value.1))
  }

  /** The length after the slash: decimal digits only, at most the family's maximum. */
  function PrefixLength(s: string, maximum: nat): Option<nat> {
    if AllDigits(s) && Value(s) <= maximum then Some(Value(s)) else None
  }

  /** parse_prefix for IPv4, with the canonical address. */
  function ParsePrefix4(text: string, pton: Pton4): Option<(bv32, nat)> {
    var parts := AtSlash(text);
    if parts.None? then None
    else
      var length, address := PrefixLength(parts.value.1, 32), pton(parts.value.0);
      if length.None? || address.None? then None
      else Some((Prefix.MaskWord(address.value, LengthWord(length.value)), length.value))
  }

  function LengthWord(n: nat): (w: bv32)
    requires n <= 32
    ensures w <= 32
  {
    n as bv32
  }

  /** parse_prefix for IPv6, with the canonical address. */
  function ParsePrefix6(text: string, pton: Pton6): Option<(seq<bool>, nat)> {
    var parts := AtSlash(text);
    if parts.None? then None
    else
      var length, address := PrefixLength(parts.value.1, 128), pton(parts.value.0);
      if length.None? || address.None? || |address.value| != 128 then None
      else Some((Prefix.Canonical(address.value, length.value), length.value))
  }

  predicate ConfigInRange(n: seq<nat>)
    requires |n| == 12
  {
    && n[0] <= 1 && n[1] <= 1 && n[1] <= n[0] && n[4] <= 1 && n[5] <= 1 && n[6] == 1
    && 64 <= n[7] <= 8192 && 1 <= n[8] <= 10000 && 1 <= n[9] <= MAX_FLOWS
    && 1 <= n[10] <= 100000 && 1 <= n[11] <= 100000
  }

  function ConfigOf(n: seq<nat>): ConfigLine
    requires |n| == 12
  {
    ConfigLine(n[0] == 1, n[1] == 1, n[2], n[3], VerdictOfNumber(n[4]), VerdictOfNumber(n[5]), n[6], n[7], n[8], n[9],
               n[10], n[11])
  }

  function ParseNumbers(line: string, command: string, n: nat): Option<seq<nat>> {
    match ScanLiteral(line, command)
    case Failed => None
    case Got(_, rest) =>
      match ScanNumbers(rest, n)
      case Failed => None
      case Got(ns, _) => if |ns| == n then Some(ns) else None
  }

  /** A command, a word of at most `max` characters, and numbers. */
  function ParseWordNumbers(line: string, command: string, max: nat, n: nat): Option<(string, seq<nat>)> {
    match ScanLiteral(line, command)
    case Failed => None
    case Got(_, rest) =>
      match ScanWord(rest, max)
      case Failed => None
      case Got(word, more) =>
        match ScanNumbers(more, n)
        case Failed => None
        case Got(ns, _) => if |ns| == n then Some((word, ns)) else None
  }

  function ParseConfig(s: Snapshot, line: string): Option<Snapshot> {
    var n := ParseNumbers(line, "CONFIG", 12);
    if s.config.Some? || n.None? || !ConfigInRange(n.value) then None else Some(s.(config := Some(ConfigOf(n.value))))
  }

  function ParseSubject(s: Snapshot, line: string): Option<Snapshot> {
    var f := ParseWordNumbers(line, "SUBJECT", 31, 1);
    if f.None? || f.value.1[0] == 0 || ScanMac(f.value.0, 0).None? || |s.subjects| >= MAX_SUBJECTS then None
    else Some(s.(subjects := s.subjects + [SubjectEntry(ScanMac(f.value.0, 0).value, f.value.1[0])]))
  }

  function ParsePolicy(s: Snapshot, line: string): Option<Snapshot> {
    var n := ParseNumbers(line, "POLICY", 3);
    if n.None? || n.value[0] == 0 || n.value[1] > 65535 || n.value[2] > 1 || |s.policies| >= MAX_POLICY_ENTRIES then None
    else Some(s.(policies := s.policies + [PolicyEntry(n.value[0], n.value[1], VerdictOfNumber(n.value[2]))]))
  }

  function ParsePort(s: Snapshot, line: string): Option<Snapshot> {
    var n := ParseNumbers(line, "PORT", 5);
    if n.None? || (n.value[0] != 6 && n.value[0] != 17) || n.value[1] == 0 || n.value[1] > 65535
       || ParseHint(n.value[2], n.value[3], n.value[4]).None? || |s.ports| >= MAX_PORT_HINTS then None
    else
      var hint := ParseHint(n.value[2], n.value[3], n.value[4]).value;
      Some(s.(ports := s.ports + [PortEntry(n.value[0], n.value[1], hint)]))
  }

  function Parse4(s: Snapshot, line: string, pton: Pton4): Option<Snapshot> {
    var f := ParseWordNumbers(line, "PREFIX4", 18, 3);
    if f.None? then None
    else
      var prefix, hint := ParsePrefix4(f.value.0, pton), ParseHint(f.value.1[0], f.value.1[1], f.value.1[2]);
      if prefix.None? || hint.None? || |s.v4| >= MAX_PREFIX_HINTS then None
      else Some(s.(v4 := s.v4 + [Prefix4(prefix.value.0, prefix.value.1, hint.value)]))
  }

  function Parse6(s: Snapshot, line: string, pton: Pton6): Option<Snapshot> {
    var f := ParseWordNumbers(line, "PREFIX6", 49, 3);
    if f.None? then None
    else
      var prefix, hint := ParsePrefix6(f.value.0, pton), ParseHint(f.value.1[0], f.value.1[1], f.value.1[2]);
      if prefix.None? || hint.None? || |s.v6| >= MAX_PREFIX_HINTS then None
      else Some(s.(v6 := s.v6 + [Prefix6(prefix.value.0, prefix.value.1, hint.value)]))
  }

  /** One turn of the parsing loop; comments, empty lines and lines of white space change nothing. */
  function ParseLine(s: Snapshot, line: string, pton4: Pton4, pton6: Pton6): Option<Snapshot> {
    if line == "" || line[0] == '#' then Some(s)
    else
      match ScanWord(line, 15)
      case Failed => Some(s)
      case Got(command, _) =>
        if command == "CONFIG" then ParseConfig(s, line)
        else if command == "SUBJECT" then ParseSubject(s, line)
        else if command == "PORT" then ParsePort(s, line)
        else if command == "PREFIX4" then Parse4(s, line, pton4)
        else if command == "PREFIX6" then Parse6(s, line, pton6)
        else if command == "POLICY" then ParsePolicy(s, line)
        else None
  }

  function ParseLines(s: Snapshot, lines: seq<string>, pton4: Pton4, pton6: Pton6): Option<Snapshot> {
    if lines == [] then Some(s)
    else
      var before := ParseLines(s, lines[..|lines| - 1], pton4, pton6);
      if before.None? then None else ParseLine(before.value, lines[|lines| - 1], pton4, pton6)
  }

  /** parse_snapshot: stops at the first bad line, and insists on a CONFIG line. */
  method ParseSnapshot(text: string, pton4: Pton4, pton6: Pton6) returns (r: Option<Snapshot>)
    ensures r.Some? <==> ParseLines(Empty(), Lines(text), pton4, pton6).Some?
                         && ParseLines(Empty(), Lines(text), pton4, pton6).value.config.Some?
    ensures r.Some? ==> r == ParseLines(Empty(), Lines(text), pton4, pton6)
  {
    hide ParseLine, Lines;
    var lines := Lines(text);
    var snapshot := Empty();
    for i := 0 to |lines|
      invariant ParseLines(Empty(), lines[..i], pton4, pton6) == Some(snapshot)
    {
      assert lines[..i + 1][..i] == lines[..i];
      var next := ParseLine(snapshot, lines[i], pton4, pton6);
      if next.None? {
        BadLineStays(lines, i + 1, pton4, pton6);
        return None;
      }
      snapshot := next.value;
    }
    assert lines[..|lines|] == lines;
    return if snapshot.config.None? then None else Some(snapshot);
  }

  lemma {:induction false} BadLineStays(lines: seq<string>, n: nat, pton4: Pton4, pton6: Pton6)
    requires n <= |lines| && ParseLines(Empty(), lines[..n], pton4, pton6).None?
    ensures ParseLines(Empty(), lines, pton4, pton6).None?
  {
    if n == |lines| {
      assert lines[..n] == lines;
    } else {
      var m := |lines| - 1;
      assert lines[..m][..n] == lines[..n];
      BadLineStays(lines[..m], n, pton4, pton6);
    }
  }
}
