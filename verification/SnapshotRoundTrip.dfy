/** Printing and parsing a snapshot undo each other. */
module SnapshotRoundTrip {
  import opened Common
  import opened ClassGraph
  import opened Hints
  import opened Scanner
  import opened SnapshotText
  import Fusion

  // ----- What can be printed and read back -----

  predicate HintOk(h: Hint) {
    ParseHint(h.classId, h.categoryId, KindNumber(h.kind)) == Some(h)
  }

  predicate SubjectsOk(es: seq<SubjectEntry>) {
    |es| <= MAX_SUBJECTS && forall i :: 0 <= i < |es| ==> MacBytes(es[i].mac) && 0 < es[i].id < 0x1_0000_0000
  }

  predicate PoliciesOk(es: seq<PolicyEntry>) {
    |es| <= MAX_POLICY_ENTRIES && forall i :: 0 <= i < |es| ==> 0 < es[i].subject < 0x1_0000_0000 && es[i].classId <= 65535
  }

  predicate PortsOk(es: seq<PortEntry>) {
    && |es| <= MAX_PORT_HINTS
    && forall i :: 0 <= i < |es| ==> PortOk(es[i])
  }

  predicate PortOk(e: PortEntry) {
    (e.protocol == 6 || e.protocol == 17) && 0 < e.port <= 65535 && HintOk(e.hint)
  }

  predicate Prefix4Ok(e: PrefixText, pton: Pton4) {
    e.text != "" && Spaceless(e.text) && |e.text| <= 18 && ParsePrefix4(e.text, pton).Some? && HintOk(e.hint)
  }

  predicate Prefix6Ok(e: PrefixText, pton: Pton6) {
    e.text != "" && Spaceless(e.text) && |e.text| <= 49 && ParsePrefix6(e.text, pton).Some? && HintOk(e.hint)
  }

  predicate Prefixes4Ok(es: seq<PrefixText>, pton: Pton4) {
    |es| <= MAX_PREFIX_HINTS && forall i :: 0 <= i < |es| ==> Prefix4Ok(es[i], pton)
  }

  predicate Prefixes6Ok(es: seq<PrefixText>, pton: Pton6) {
    |es| <= MAX_PREFIX_HINTS && forall i :: 0 <= i < |es| ==> Prefix6Ok(es[i], pton)
  }

  predicate ConfigOk(c: ConfigLine) {
    ConfigInRange(ConfigNumbers(c)) && c.policyGen < 0x1_0000_0000 && c.classifierGen < 0x1_0000_0000
  }

  /** Within the map capacities, with resource limits in range and valid prefix texts. */
  predicate Printable(c: Compiled, pton4: Pton4, pton6: Pton6) {
    && ConfigOk(c.config) && SubjectsOk(c.selectors) && PoliciesOk(c.policies) && PortsOk(c.ports)
    && Prefixes4Ok(c.prefixes4, pton4) && Prefixes6Ok(c.prefixes6, pton6)
  }

  function Canonical4(es: seq<PrefixText>, pton: Pton4): seq<Prefix4>
    requires forall i :: 0 <= i < |es| ==> Prefix4Ok(es[i], pton)
  {
    if es == [] then []
    else
      var n := |es| - 1;
      assert Prefix4Ok(es[n], pton);
      var p := ParsePrefix4(es[n].text, pton).value;
      Canonical4(es[..n], pton) + [Prefix4(p.0, p.1, es[n].hint)]
  }

  function Canonical6(es: seq<PrefixText>, pton: Pton6): seq<Prefix6>
    requires forall i :: 0 <= i < |es| ==> Prefix6Ok(es[i], pton)
  {
    if es == [] then []
    else
      var n := |es| - 1;
      assert Prefix6Ok(es[n], pton);
      var p := ParsePrefix6(es[n].text, pton).value;
      Canonical6(es[..n], pton) + [Prefix6(p.0, p.1, es[n].hint)]
  }

  /** The same content with prefixes canonicalized. */
  function Expected(c: Compiled, pton4: Pton4, pton6: Pton6): Snapshot
    requires Printable(c, pton4, pton6)
  {
    Snapshot(Some(c.config), c.selectors, c.policies, c.ports, Canonical4(c.prefixes4, pton4),
             Canonical6(c.prefixes6, pton6))
  }

  // ----- Single lines -----

  predicate IsCommand(command: string) {
    command in ["CONFIG", "SUBJECT", "POLICY", "PORT", "PREFIX4", "PREFIX6"]
  }

  lemma CommandIsWord(command: string)
    requires IsCommand(command)
    ensures command != "" && Spaceless(command) && |command| <= 15 && command[0] != '#' && '\n' !in command
  {
  }

  lemma CommandSeen(command: string, rest: string)
    requires IsCommand(command) && Breaks(rest)
    ensures ScanWord(command + rest, 15) == Got(command, rest)
    ensures ScanLiteral(command + rest, command) == Got((), rest)
    ensures command + rest != "" && (command + rest)[0] != '#'
  {
    CommandIsWord(command);
    hide IsCommand;
    ScanWordJoin(command, rest, 15);
    assert command <= command + rest && (command + rest)[|command|..] == rest;
  }

  lemma NumbersParse(command: string, ns: seq<nat>)
    requires IsCommand(command) && Fit32(ns)
    ensures ParseNumbers(command + Numbers(ns), command, |ns|) == Some(ns)
    ensures ScanWord(command + Numbers(ns), 15).Got? && ScanWord(command + Numbers(ns), 15).value == command
    ensures command + Numbers(ns) != "" && (command + Numbers(ns))[0] != '#'
  {
    hide ScanWord, ScanNumbers, IsCommand, Numbers;
    ScanNumbersPrinted(ns, "");
    assert Numbers(ns) + "" == Numbers(ns);
    NumbersBreak(ns, "");
    CommandSeen(command, Numbers(ns));
  }

  lemma WordNumbersParse(command: string, word: string, ns: seq<nat>, max: nat)
    requires IsCommand(command) && Fit32(ns) && word != "" && Spaceless(word) && |word| <= max
    ensures ParseWordNumbers(command + " " + word + Numbers(ns), command, max, |ns|) == Some((word, ns))
    ensures var line := command + " " + word + Numbers(ns);
            && ScanWord(line, 15).Got? && ScanWord(line, 15).value == command && line != "" && line[0] != '#'
  {
    hide ScanWord, ScanNumbers, IsCommand, Numbers;
    var rest := " " + word + Numbers(ns);
    assert command + " " + word + Numbers(ns) == command + rest;
    NumbersBreak(ns, "");
    assert Numbers(ns) + "" == Numbers(ns);
    CommandSeen(command, rest);
    ScanWordJoin(word, Numbers(ns), max);
    ScanNumbersPrinted(ns, "");
  }

  lemma HexParses(b: nat, rest: string)
    requires b < 256
    ensures ScanHex(HexByte(b) + rest) == Got(b, rest)
  {
  }

  /** A printed hardware address is read back. */
  lemma MacParses(mac: seq<nat>)
    requires MacBytes(mac)
    ensures ScanMac(MacText(mac), 0) == Some(mac)
  {
    hide ScanHex, HexByte;
    var t5 := HexByte(mac[5]);
    var t4 := HexByte(mac[4]) + (":" + t5);
    var t3 := HexByte(mac[3]) + (":" + t4);
    var t2 := HexByte(mac[2]) + (":" + t3);
    var t1 := HexByte(mac[1]) + (":" + t2);
    var t0 := HexByte(mac[0]) + (":" + t1);
    assert MacText(mac) == t0;
    assert t5 == HexByte(mac[5]) + "";
    HexParses(mac[5], "");
    assert mac[5..] == [mac[5]];
    MacStep(mac[4], t5, 4, mac[5..]);
    assert mac[4..] == [mac[4]] + mac[5..];
    MacStep(mac[3], t4, 3, mac[4..]);
    assert mac[3..] == [mac[3]] + mac[4..];
    MacStep(mac[2], t3, 2, mac[3..]);
    assert mac[2..] == [mac[2]] + mac[3..];
    MacStep(mac[1], t2, 1, mac[2..]);
    assert mac[1..] == [mac[1]] + mac[2..];
    MacStep(mac[0], t1, 0, mac[1..]);
    assert mac == [mac[0]] + mac[1..];
  }

  lemma MacStep(b: nat, rest: string, i: nat, others: seq<nat>)
    requires b < 256 && i < 5 && ScanMac(rest, i + 1) == Some(others)
    ensures ScanMac(HexByte(b) + (":" + rest), i) == Some([b] + others)
  {
    hide HexByte, ScanHex;
    HexParses(b, ":" + rest);
    assert (":" + rest)[1..] == rest;
  }

  lemma ConfigLineParses(s: Snapshot, c: ConfigLine, pton4: Pton4, pton6: Pton6)
    requires s.config.None? && ConfigOk(c)
    ensures ParseLine(s, ConfigText(c), pton4, pton6) == Some(s.(config := Some(c)))
  {
    NumbersParse("CONFIG", ConfigNumbers(c));
    assert ConfigOf(ConfigNumbers(c)) == c;
    hide ParseNumbers, ScanWord, Numbers;
  }

  lemma SubjectLineParses(s: Snapshot, e: SubjectEntry, pton4: Pton4, pton6: Pton6)
    requires |s.subjects| < MAX_SUBJECTS && MacBytes(e.mac) && 0 < e.id < 0x1_0000_0000
    ensures ParseLine(s, SubjectText(e), pton4, pton6) == Some(s.(subjects := s.subjects + [e]))
  {
    hide MacText, ScanMac, ParseWordNumbers, ScanWord, Numbers;
    MacParses(e.mac);
    WordNumbersParse("SUBJECT", MacText(e.mac), [e.id], 31);
  }

  lemma PolicyLineParses(s: Snapshot, e: PolicyEntry, pton4: Pton4, pton6: Pton6)
    requires |s.policies| < MAX_POLICY_ENTRIES && 0 < e.subject < 0x1_0000_0000 && e.classId <= 65535
    ensures ParseLine(s, PolicyText(e), pton4, pton6) == Some(s.(policies := s.policies + [e]))
  {
    hide ParseNumbers, ScanWord, Numbers;
    NumbersParse("POLICY", [e.subject, e.classId, VerdictNumber(e.verdict)]);
  }

  lemma PortLineParses(s: Snapshot, e: PortEntry, pton4: Pton4, pton6: Pton6)
    requires |s.ports| < MAX_PORT_HINTS && PortOk(e)
    ensures ParseLine(s, PortText(e), pton4, pton6) == Some(s.(ports := s.ports + [e]))
  {
    HintFits(e.hint);
    hide ParseNumbers, ScanWord, Numbers, ParseHint;
    NumbersParse("PORT", [e.protocol, e.port, e.hint.classId, e.hint.categoryId, KindNumber(e.hint.kind)]);
  }

  lemma HintFits(h: Hint)
    requires HintOk(h)
    ensures Fit32(HintNumbers(h)) && h.classId < 0x1_0000_0000 && h.categoryId < 0x1_0000_0000
  {
  }

  /** A line goes to the parser of its first word. */
  lemma PrefixDispatch(s: Snapshot, line: string, command: string, pton4: Pton4, pton6: Pton6)
    requires line != "" && line[0] != '#' && ScanWord(line, 15).Got? && ScanWord(line, 15).value == command
    ensures command == "PREFIX4" ==> ParseLine(s, line, pton4, pton6) == Parse4(s, line, pton4)
    ensures command == "PREFIX6" ==> ParseLine(s, line, pton4, pton6) == Parse6(s, line, pton6)
  {
    hide ScanWord, Parse4, Parse6;
  }

  lemma Prefix4LineParses(s: Snapshot, e: PrefixText, pton4: Pton4, pton6: Pton6)
    requires |s.v4| < MAX_PREFIX_HINTS && Prefix4Ok(e, pton4)
    ensures var p := ParsePrefix4(e.text, pton4).value;
            ParseLine(s, PrefixLine("PREFIX4", e), pton4, pton6) == Some(s.(v4 := s.v4 + [Prefix4(p.0, p.1, e.hint)]))
  {
    HintFits(e.hint);
    hide ParseWordNumbers, ScanWord, Numbers, ParseHint, ParsePrefix4, ParseLine;
    WordNumbersParse("PREFIX4", e.text, HintNumbers(e.hint), 18);
    PrefixDispatch(s, PrefixLine("PREFIX4", e), "PREFIX4", pton4, pton6);
  }

  lemma Prefix6LineParses(s: Snapshot, e: PrefixText, pton4: Pton4, pton6: Pton6)
    requires |s.v6| < MAX_PREFIX_HINTS && Prefix6Ok(e, pton6)
    ensures var p := ParsePrefix6(e.text, pton6).value;
            ParseLine(s, PrefixLine("PREFIX6", e), pton4, pton6) == Some(s.(v6 := s.v6 + [Prefix6(p.0, p.1, e.hint)]))
  {
    HintFits(e.hint);
    hide ParseWordNumbers, ScanWord, Numbers, ParseHint, ParsePrefix6, ParseLine;
    WordNumbersParse("PREFIX6", e.text, HintNumbers(e.hint), 49);
    PrefixDispatch(s, PrefixLine("PREFIX6", e), "PREFIX6", pton4, pton6);
  }

  // ----- Sections -----

  lemma {:induction false} ParseLinesConcat(s: Snapshot, a: seq<string>, b: seq<string>, pton4: Pton4, pton6: Pton6)
    requires ParseLines(s, a, pton4, pton6).Some?
    ensures ParseLines(s, a + b, pton4, pton6) == ParseLines(ParseLines(s, a, pton4, pton6).value, b, pton4, pton6)
  {
    hide ParseLine;
    if b == [] {
      assert a + b == a;
    } else {
      var n := |b| - 1;
      ParseLinesConcat(s, a, b[..n], pton4, pton6);
      assert (a + b)[..|a + b| - 1] == a + b[..n];
    }
  }

  lemma {:induction false} SubjectsParse(s: Snapshot, es: seq<SubjectEntry>, pton4: Pton4, pton6: Pton6)
    requires SubjectsOk(es) && s.subjects == []
    ensures ParseLines(s, SubjectTexts(es), pton4, pton6) == Some(s.(subjects := es))
  {
    hide ParseLine, SubjectText;
    if es != [] {
      var n := |es| - 1;
      SubjectsParse(s, es[..n], pton4, pton6);
      SubjectLineParses(s.(subjects := es[..n]), es[n], pton4, pton6);
      assert es[..n] + [es[n]] == es;
    }
  }

  lemma {:induction false} PoliciesParse(s: Snapshot, es: seq<PolicyEntry>, pton4: Pton4, pton6: Pton6)
    requires PoliciesOk(es) && s.policies == []
    ensures ParseLines(s, PolicyTexts(es), pton4, pton6) == Some(s.(policies := es))
  {
    hide ParseLine, PolicyText;
    if es != [] {
      var n := |es| - 1;
      PoliciesParse(s, es[..n], pton4, pton6);
      PolicyLineParses(s.(policies := es[..n]), es[n], pton4, pton6);
      assert es[..n] + [es[n]] == es;
    }
  }

  lemma {:induction false} PortsParse(s: Snapshot, es: seq<PortEntry>, pton4: Pton4, pton6: Pton6)
    requires PortsOk(es) && s.ports == []
    ensures ParseLines(s, PortTexts(es), pton4, pton6) == Some(s.(ports := es))
  {
    hide ParseLine, PortText, HintOk;
    if es != [] {
      var n := |es| - 1;
      PortsParse(s, es[..n], pton4, pton6);
      PortLineParses(s.(ports := es[..n]), es[n], pton4, pton6);
      assert es[..n] + [es[n]] == es;
    }
  }

  lemma {:induction false} Prefixes4Parse(s: Snapshot, es: seq<PrefixText>, pton4: Pton4, pton6: Pton6)
    requires Prefixes4Ok(es, pton4) && s.v4 == []
    ensures ParseLines(s, PrefixLines("PREFIX4", es), pton4, pton6) == Some(s.(v4 := Canonical4(es, pton4)))
    ensures |Canonical4(es, pton4)| == |es|
  {
    hide ParseLine, PrefixLine, HintOk, ParsePrefix4;
    if es != [] {
      var n := |es| - 1;
      Prefixes4Parse(s, es[..n], pton4, pton6);
      Prefix4LineParses(s.(v4 := Canonical4(es[..n], pton4)), es[n], pton4, pton6);
    }
  }

  lemma {:induction false} Prefixes6Parse(s: Snapshot, es: seq<PrefixText>, pton4: Pton4, pton6: Pton6)
    requires Prefixes6Ok(es, pton6) && s.v6 == []
    ensures ParseLines(s, PrefixLines("PREFIX6", es), pton4, pton6) == Some(s.(v6 := Canonical6(es, pton6)))
    ensures |Canonical6(es, pton6)| == |es|
  {
    hide ParseLine, PrefixLine, HintOk, ParsePrefix6;
    if es != [] {
      var n := |es| - 1;
      Prefixes6Parse(s, es[..n], pton4, pton6);
      Prefix6LineParses(s.(v6 := Canonical6(es[..n], pton6)), es[n], pton4, pton6);
    }
  }

  // ----- The round trip -----

  lemma LinesParse(c: Compiled, pton4: Pton4, pton6: Pton6)
    requires Printable(c, pton4, pton6)
    ensures ParseLines(Empty(), SnapshotLines(c), pton4, pton6) == Some(Expected(c, pton4, pton6))
  {
    var first := [ConfigText(c.config)];
    var s0 := Empty().(config := Some(c.config));
    ConfigLineParses(Empty(), c.config, pton4, pton6);
    assert first[..0] == [];
    assert ParseLines(Empty(), first, pton4, pton6) == Some(s0);
    hide ParseLine, ConfigText, ParseLines, SubjectTexts, PolicyTexts, PortTexts, PrefixLines, Canonical4, Canonical6;
    var s1 := s0.(subjects := c.selectors);
    SubjectsParse(s0, c.selectors, pton4, pton6);
    var l1 := first + SubjectTexts(c.selectors);
    ParseLinesConcat(Empty(), first, SubjectTexts(c.selectors), pton4, pton6);
    var s2 := s1.(policies := c.policies);
    PoliciesParse(s1, c.policies, pton4, pton6);
    var l2 := l1 + PolicyTexts(c.policies);
    ParseLinesConcat(Empty(), l1, PolicyTexts(c.policies), pton4, pton6);
    var s3 := s2.(ports := c.ports);
    PortsParse(s2, c.ports, pton4, pton6);
    var l3 := l2 + PortTexts(c.ports);
    ParseLinesConcat(Empty(), l2, PortTexts(c.ports), pton4, pton6);
    Prefixes4Parse(s3, c.prefixes4, pton4, pton6);
    var s4 := s3.(v4 := Canonical4(c.prefixes4, pton4));
    var l4 := l3 + PrefixLines("PREFIX4", c.prefixes4);
    ParseLinesConcat(Empty(), l3, PrefixLines("PREFIX4", c.prefixes4), pton4, pton6);
    Prefixes6Parse(s4, c.prefixes6, pton4, pton6);
    ParseLinesConcat(Empty(), l4, PrefixLines("PREFIX6", c.prefixes6), pton4, pton6);
  }

  /**
   * Whatever is within the capacities and has valid prefix texts, the parser accepts what the printer writes and
   * rebuilds the same config, subjects, policies, ports and hints, with the prefixes canonicalized.
   */
  method PrintAndParse(c: Compiled, pton4: Pton4, pton6: Pton6) returns (r: Option<Snapshot>)
    requires Printable(c, pton4, pton6)
    ensures r == Some(Expected(c, pton4, pton6))
  {
    hide ParseLines, Lines, Joined, SnapshotLines, Canonical4, Canonical6;
    var text := Serialize(c);
    NoNewlines(c, pton4, pton6);
    assert forall i :: 0 <= i < |SnapshotLines(c)| ==> OneLine(SnapshotLines(c)[i]);
    LinesOfJoined(SnapshotLines(c));
    LinesParse(c, pton4, pton6);
    r := ParseSnapshot(text, pton4, pton6);
  }

  predicate OneLine(s: string) {
    '\n' !in s
  }

  predicate OneLineEach(lines: seq<string>) {
    forall i :: 0 <= i < |lines| ==> OneLine(lines[i])
  }

  lemma SectionsOneLine(a: string, b: seq<string>, c: seq<string>, d: seq<string>, e: seq<string>, f: seq<string>)
    requires OneLine(a) && OneLineEach(b) && OneLineEach(c) && OneLineEach(d) && OneLineEach(e) && OneLineEach(f)
    ensures OneLineEach([a] + b + c + d + e + f)
  {
    hide OneLine, OneLineEach;
    SingleLine(a);
    OneLineConcat([a], b);
    OneLineConcat([a] + b, c);
    OneLineConcat([a] + b + c, d);
    OneLineConcat([a] + b + c + d, e);
    OneLineConcat([a] + b + c + d + e, f);
  }

  lemma PrintedPrefixesSpaceless(c: Compiled, pton4: Pton4, pton6: Pton6)
    requires Printable(c, pton4, pton6)
    ensures forall i :: 0 <= i < |c.prefixes4| ==> Spaceless(c.prefixes4[i].text)
    ensures forall i :: 0 <= i < |c.prefixes6| ==> Spaceless(c.prefixes6[i].text)
  {
    hide Spaceless;
    forall i | 0 <= i < |c.prefixes4|
      ensures Spaceless(c.prefixes4[i].text)
    {
      assert Prefix4Ok(c.prefixes4[i], pton4);
    }
    forall i | 0 <= i < |c.prefixes6|
      ensures Spaceless(c.prefixes6[i].text)
    {
      assert Prefix6Ok(c.prefixes6[i], pton6);
    }
  }

  lemma ConfigOneLine(c: ConfigLine)
    ensures OneLine(ConfigText(c))
  {
    hide Numbers, ConfigNumbers;
    NumbersHaveNoNewline(ConfigNumbers(c));
  }

  lemma NoNewlines(c: Compiled, pton4: Pton4, pton6: Pton6)
    requires Printable(c, pton4, pton6)
    ensures OneLineEach(SnapshotLines(c))
  {
    PrintedPrefixesSpaceless(c, pton4, pton6);
    hide SubjectTexts, PolicyTexts, PortTexts, PrefixLines, Numbers, OneLineEach, Spaceless, ConfigNumbers, OneLine;
    assert OneLine(ConfigText(c.config)) by { ConfigOneLine(c.config); }
    SubjectsOneLine(c.selectors);
    PoliciesOneLine(c.policies);
    PortsOneLine(c.ports);
    PrefixesOneLine("PREFIX4", c.prefixes4);
    PrefixesOneLine("PREFIX6", c.prefixes6);
    SectionsOneLine(ConfigText(c.config), SubjectTexts(c.selectors), PolicyTexts(c.policies), PortTexts(c.ports),
                    PrefixLines("PREFIX4", c.prefixes4), PrefixLines("PREFIX6", c.prefixes6));
  }

  lemma SingleLine(line: string)
    requires OneLine(line)
    ensures OneLineEach([line])
  {
  }

  lemma OneLineConcat(a: seq<string>, b: seq<string>)
    requires OneLineEach(a) && OneLineEach(b)
    ensures OneLineEach(a + b)
  {
  }

  lemma {:induction false} SubjectsOneLine(es: seq<SubjectEntry>)
    requires PrintableSubjects(es)
    ensures OneLineEach(SubjectTexts(es))
  {
    if es != [] {
      SubjectsOneLine(es[..|es| - 1]);
      NumbersHaveNoNewline([es[|es| - 1].id]);
      hide MacText, Numbers;
      assert OneLine(SubjectText(es[|es| - 1]));
    }
  }

  lemma {:induction false} PoliciesOneLine(es: seq<PolicyEntry>)
    ensures OneLineEach(PolicyTexts(es))
  {
    if es != [] {
      var e := es[|es| - 1];
      PoliciesOneLine(es[..|es| - 1]);
      NumbersHaveNoNewline([e.subject, e.classId, VerdictNumber(e.verdict)]);
      hide Numbers;
      assert OneLine(PolicyText(e));
    }
  }

  lemma {:induction false} PortsOneLine(es: seq<PortEntry>)
    ensures OneLineEach(PortTexts(es))
  {
    if es != [] {
      var e := es[|es| - 1];
      PortsOneLine(es[..|es| - 1]);
      NumbersHaveNoNewline([e.protocol, e.port, e.hint.classId, e.hint.categoryId, KindNumber(e.hint.kind)]);
      hide Numbers;
      assert OneLine(PortText(e));
    }
  }

  lemma {:induction false} PrefixesOneLine(command: string, es: seq<PrefixText>)
    requires IsCommand(command) && forall i :: 0 <= i < |es| ==> Spaceless(es[i].text)
    ensures OneLineEach(PrefixLines(command, es))
  {
    if es != [] {
      var e := es[|es| - 1];
      PrefixesOneLine(command, es[..|es| - 1]);
      NumbersHaveNoNewline(HintNumbers(e.hint));
      CommandIsWord(command);
      hide Numbers, IsCommand;
      assert OneLine(PrefixLine(command, e));
    }
  }

  // ----- Fused hints -----

  /** Configured classes have 16-bit ids above the reserved ones. */
  predicate IdsFit(classes: Classes) {
    forall id :: id in classes && (classes[id].kind == Category || id > CLASS_UNCLASSIFIED) ==> CLASS_UNCLASSIFIED < id <= 65535
  }

  /** The claims are about configured classes. */
  predicate Configured(claims: seq<Fusion.Claim>) {
    forall i :: 0 <= i < |claims| && Fusion.Usable(claims[i]) ==> claims[i].hint.value.classId > CLASS_UNCLASSIFIED
  }

  lemma CompiledHintOk(classes: Classes, h: Hint)
    requires IdsFit(classes) && Fusion.ValidHint(classes, h) && h.classId > CLASS_UNCLASSIFIED
    ensures HintOk(h)
  {
    WalkIsNearest(classes, h.classId, AnyCategory(classes));
    if h.kind == ExactKind && RuntimeCategory(classes, h.classId).Some? {
      assert AnyCategory(classes)(h.categoryId);
      assert IsCategory(classes, h.categoryId);
    }
  }

  lemma {:induction false} SelectedIsClaimed(classes: Classes, claims: seq<Fusion.Claim>)
    ensures var s := Fusion.MergeFold(classes, claims);
            s.selected.Some? ==> exists i :: 0 <= i < |claims| && Fusion.Usable(claims[i]) && claims[i].hint == s.selected
  {
    if claims != [] {
      var n := |claims| - 1;
      SelectedIsClaimed(classes, claims[..n]);
      var before := Fusion.MergeFold(classes, claims[..n]);
      if before.selected.Some? {
        var i :| 0 <= i < n && Fusion.Usable(claims[..n][i]) && claims[..n][i].hint == before.selected;
        assert Fusion.Usable(claims[i]) && claims[i].hint == before.selected;
      }
    }
  }

  /** Every hint that fusion can produce is accepted by the parser and comes back unchanged. */
  lemma FusedHintParses(classes: Classes, claims: seq<Fusion.Claim>)
    requires IdsFit(classes) && Fusion.ValidClaims(classes, claims) && Configured(claims)
    ensures HintOk(Fusion.Merge(classes, claims).hint)
  {
    var s := Fusion.MergeFold(classes, claims);
    SelectedIsClaimed(classes, claims);
    if !s.conflict && s.selected.Some? { CompiledHintOk(classes, s.selected.value); }
  }
}
