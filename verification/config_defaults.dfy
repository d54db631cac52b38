/** Decimal spellings the default configuration and the rule table use,
    read back by `std::stoi`. */
module ConfigNumbers {
  import opened Text

  // The decimal spellings the default text and the rule table use. Each
  // NatToString step is spelled out so the solver need not search for it.

  lemma Spelled1()
    ensures IntToString(1) == "1"
  {
    assert NatToString(1) == "1";
  }

  lemma Decimal1()
    ensures StoI("1") == Some(1)
  {
    Spelled1();
    StoIOfIntToString(1);
  }

  lemma Spelled3()
    ensures IntToString(3) == "3"
  {
    assert NatToString(3) == "3";
  }

  lemma Decimal3()
    ensures StoI("3") == Some(3)
  {
    Spelled3();
    StoIOfIntToString(3);
  }

  lemma Spelled10()
    ensures IntToString(10) == "10"
  {
    assert NatToString(1) == "1";
    assert NatToString(10) == "1" + "0";
  }

  lemma Decimal10()
    ensures StoI("10") == Some(10)
  {
    Spelled10();
    StoIOfIntToString(10);
  }

  lemma Spelled15()
    ensures IntToString(15) == "15"
  {
    assert NatToString(1) == "1";
    assert NatToString(15) == "1" + "5";
  }

  lemma Decimal15()
    ensures StoI("15") == Some(15)
  {
    Spelled15();
    StoIOfIntToString(15);
  }

  lemma Spelled30()
    ensures IntToString(30) == "30"
  {
    assert NatToString(3) == "3";
    assert NatToString(30) == "3" + "0";
  }

  lemma Decimal30()
    ensures StoI("30") == Some(30)
  {
    Spelled30();
    StoIOfIntToString(30);
  }

  lemma Spelled60()
    ensures IntToString(60) == "60"
  {
    assert NatToString(6) == "6";
    assert NatToString(60) == "6" + "0";
  }

  lemma Decimal60()
    ensures StoI("60") == Some(60)
  {
    Spelled60();
    StoIOfIntToString(60);
  }

  lemma Spelled80()
    ensures IntToString(80) == "80"
  {
    assert NatToString(8) == "8";
    assert NatToString(80) == "8" + "0";
  }

  lemma Decimal80()
    ensures StoI("80") == Some(80)
  {
    Spelled80();
    StoIOfIntToString(80);
  }

  lemma Spelled100()
    ensures IntToString(100) == "100"
  {
    assert NatToString(1) == "1";
    assert NatToString(10) == "1" + "0";
    assert NatToString(100) == "10" + "0";
  }

  lemma Decimal100()
    ensures StoI("100") == Some(100)
  {
    Spelled100();
    StoIOfIntToString(100);
  }

  lemma Spelled300()
    ensures IntToString(300) == "300"
  {
    assert NatToString(3) == "3";
    assert NatToString(30) == "3" + "0";
    assert NatToString(300) == "30" + "0";
  }

  lemma Decimal300()
    ensures StoI("300") == Some(300)
  {
    Spelled300();
    StoIOfIntToString(300);
  }

  lemma Spelled1024()
    ensures IntToString(1024) == "1024"
  {
    assert NatToString(1) == "1";
    assert NatToString(10) == "1" + "0";
    assert NatToString(102) == "10" + "2";
    assert NatToString(1024) == "102" + "4";
  }

  lemma Decimal1024()
    ensures StoI("1024") == Some(1024)
  {
    Spelled1024();
    StoIOfIntToString(1024);
  }

  lemma Spelled8080()
    ensures IntToString(8080) == "8080"
  {
    assert NatToString(8) == "8";
    assert NatToString(80) == "8" + "0";
    assert NatToString(808) == "80" + "8";
    assert NatToString(8080) == "808" + "0";
  }

  lemma Decimal8080()
    ensures StoI("8080") == Some(8080)
  {
    Spelled8080();
    StoIOfIntToString(8080);
  }

  lemma Spelled65535()
    ensures IntToString(65535) == "65535"
  {
    assert NatToString(6) == "6";
    assert NatToString(65) == "6" + "5";
    assert NatToString(655) == "65" + "5";
    assert NatToString(6553) == "655" + "3";
    assert NatToString(65535) == "6553" + "5";
  }

  lemma Decimal65535()
    ensures StoI("65535") == Some(65535)
  {
    Spelled65535();
    StoIOfIntToString(65535);
  }
}

module DefaultConfig {
  import opened Text
  import opened ConfigRules
  import opened ConfigNumbers

  /** Parsing two runs of lines is parsing the first, then the second. */
  lemma {:induction false} ParseLinesAppend(st: ParseState, a: seq<string>, b: seq<string>)
    requires WellFormed(st)
    ensures ParseLines(st, a + b) == ParseLines(ParseLines(st, a), b)
  {
    if b != [] {
      var n := |b| - 1;
      assert (a + b)[..|a + b| - 1] == a + b[..n];
      assert (a + b)[|a + b| - 1] == b[n];
      ParseLinesAppend(st, a, b[..n]);
    } else {
      assert a + b == a;
    }
  }

  /** A run of blank and comment lines changes nothing. */
  lemma {:induction false} SkippedLines(st: ParseState, ls: seq<string>)
    requires WellFormed(st)
    requires forall i :: 0 <= i < |ls| ==> IsSkipped(ls[i])
    ensures ParseLines(st, ls) == st
  {
    if ls != [] {
      SkippedLines(st, ls[..|ls| - 1]);
    }
  }

  /** A key without '=' or white space that cannot start a comment or a
      header. */
  predicate PlainKey(k: string)
  {
    k != [] && k[0] != '#' && k[0] != ';' && k[0] != '['
    && forall i :: 0 <= i < |k| ==> k[i] != '=' && !IsSpace(k[i])
  }

  predicate PlainValue(v: string)
  {
    forall i :: 0 <= i < |v| ==> !IsSpace(v[i])
  }

  function PairLines(pairs: seq<(string, string)>): (ls: seq<string>)
    ensures |ls| == |pairs|
  {
    seq(|pairs|, i requires 0 <= i < |pairs| => pairs[i].0 + "=" + pairs[i].1)
  }

  /** The settings the pairs leave behind: a later key overrides an earlier one. */
  function PairsMap(pairs: seq<(string, string)>): map<string, string>
  {
    if pairs == [] then map[]
    else PairsMap(pairs[..|pairs| - 1])[pairs[|pairs| - 1].0 := pairs[|pairs| - 1].1]
  }

  /** One plain `key=value` line inside the current section adds the pair
      to that section's settings. */
  lemma PairStep(mid: ParseState, name: string, init: seq<(string, string)>, k: string, v: string)
    requires WellFormed(mid) && name != [] && mid.current == name
    requires mid.sections[name].settings == PairsMap(init)
    requires PlainKey(k) && PlainValue(v)
    ensures ParseLine(mid, k + "=" + v) ==
      mid.(sections := mid.sections[name := mid.sections[name].(settings := PairsMap(init + [(k, v)]))])
  {
    assert '=' !in k;
    assert Trim(k) == k && Trim(v) == v;
    KeyValueStored(mid, k, v);
    assert (init + [(k, v)])[..|init|] == init;
  }

  /** A header line makes its section current and empty. */
  lemma HeaderStep(st: ParseState, name: string)
    requires WellFormed(st) && name != []
    ensures var r := ParseLine(st, "[" + name + "]");
      r.current == name && r.sections == st.sections[name := EmptySection(name)]
  {
    assert HeaderName("[" + name + "]") == name;
  }

  lemma Overwrite(m: map<string, ConfigSection>, k: string, a: ConfigSection, b: ConfigSection)
    ensures m[k := a][k := b] == m[k := b]
  {
  }

  /** A header followed by plain `key=value` lines leaves a section of that
      name holding exactly those pairs, and makes it current. */
  lemma {:induction false} BlockParse(st: ParseState, name: string, pairs: seq<(string, string)>)
    requires WellFormed(st) && name != []
    requires forall i :: 0 <= i < |pairs| ==> PlainKey(pairs[i].0) && PlainValue(pairs[i].1)
    ensures var r := ParseLines(st, ["[" + name + "]"] + PairLines(pairs));
      && r.current == name
      && r.sections == st.sections[name := EmptySection(name).(settings := PairsMap(pairs))]
  {
    var header := "[" + name + "]";
    if pairs == [] {
      assert [header] + PairLines(pairs) == [] + [header];
      ParseLinesSnoc(st, [], header);
      HeaderStep(st, name);
    } else {
      var n := |pairs| - 1;
      var init, k, v := pairs[..n], pairs[n].0, pairs[n].1;
      assert pairs == init + [(k, v)];
      assert forall i :: 0 <= i < |init| ==> init[i] == pairs[i];
      BlockParse(st, name, init);
      var before := [header] + PairLines(init);
      PairLinesSnoc(init, k, v);
      assert [header] + PairLines(pairs) == before + [k + "=" + v];
      ParseLinesSnoc(st, before, k + "=" + v);
      var mid := ParseLines(st, before);
      PairStep(mid, name, init, k, v);
      Overwrite(st.sections, name, EmptySection(name).(settings := PairsMap(init)),
                EmptySection(name).(settings := PairsMap(pairs)));
    }
  }

  lemma ParseLinesSnoc(st: ParseState, ls: seq<string>, line: string)
    requires WellFormed(st)
    ensures ParseLines(st, ls + [line]) == ParseLine(ParseLines(st, ls), line)
  {
    assert (ls + [line])[..|ls|] == ls;
  }

  lemma PairLinesSnoc(init: seq<(string, string)>, k: string, v: string)
    ensures PairLines(init + [(k, v)]) == PairLines(init) + [k + "=" + v]
  {
  }

  function AuthPairs(): seq<(string, string)>
  {
    [("enabled", "true"), ("max_attempts", "3"), ("lockout_duration", "15")]
  }

  function NetworkPairs(): seq<(string, string)>
  {
    [("port", "8080"), ("timeout", "30"), ("encryption", "AES")]
  }

  function StealthPairs(): seq<(string, string)>
  {
    [("process_injection", "true"), ("memory_protection", "true"),
     ("network_obfuscation", "true"), ("exam_mode", "false")]
  }

  function ScreenPairs(): seq<(string, string)>
  {
    [("quality", "80"), ("frame_rate", "30"), ("compression", "JPEG")]
  }

  /** The sections the default text produces, as the parse leaves them. */
  function DefaultSections(): map<string, ConfigSection>
  {
    map["Authentication" := EmptySection("Authentication").(settings := PairsMap(AuthPairs())),
        "Network" := EmptySection("Network").(settings := PairsMap(NetworkPairs())),
        "Stealth" := EmptySection("Stealth").(settings := PairsMap(StealthPairs())),
        "ScreenSharing" := EmptySection("ScreenSharing").(settings := PairsMap(ScreenPairs()))]
  }

  lemma AuthLines()
    ensures PairLines(AuthPairs()) == ["enabled=true", "max_attempts=3", "lockout_duration=15"]
  {
    var l := PairLines(AuthPairs());
    assert l[0] == "enabled=true" && l[1] == "max_attempts=3" && l[2] == "lockout_duration=15";
  }

  lemma NetworkLines()
    ensures PairLines(NetworkPairs()) == ["port=8080", "timeout=30", "encryption=AES"]
  {
    var l := PairLines(NetworkPairs());
    assert l[0] == "port=8080" && l[1] == "timeout=30" && l[2] == "encryption=AES";
  }

  lemma StealthLines()
    ensures PairLines(StealthPairs()) == ["process_injection=true", "memory_protection=true",
                                          "network_obfuscation=true", "exam_mode=false"]
  {
    var l := PairLines(StealthPairs());
    assert l[0] == "process_injection=true" && l[1] == "memory_protection=true";
    assert l[2] == "network_obfuscation=true" && l[3] == "exam_mode=false";
  }

  lemma ScreenLines()
    ensures PairLines(ScreenPairs()) == ["quality=80", "frame_rate=30", "compression=JPEG"]
  {
    var l := PairLines(ScreenPairs());
    assert l[0] == "quality=80" && l[1] == "frame_rate=30" && l[2] == "compression=JPEG";
  }

  /** The default lines are the comment lines followed by the four
      section blocks, each closed by a blank line. */
  lemma DefaultLinesSplit()
    ensures DefaultConfigLines() == ThroughScreenSharing()
  {
    AuthLines();
    NetworkLines();
    StealthLines();
    ScreenLines();
  }

  lemma AuthPairsPlain()
    ensures forall i :: 0 <= i < |AuthPairs()| ==> PlainKey(AuthPairs()[i].0) && PlainValue(AuthPairs()[i].1)
  {
    var p := AuthPairs();
    assert PlainKey(p[0].0) && PlainValue(p[0].1);
    assert PlainKey(p[1].0) && PlainValue(p[1].1);
    assert PlainKey(p[2].0) && PlainValue(p[2].1);
  }

  lemma NetworkPairsPlain()
    ensures forall i :: 0 <= i < |NetworkPairs()| ==> PlainKey(NetworkPairs()[i].0) && PlainValue(NetworkPairs()[i].1)
  {
    var p := NetworkPairs();
    assert PlainKey(p[0].0) && PlainValue(p[0].1);
    assert PlainKey(p[1].0) && PlainValue(p[1].1);
    assert PlainKey(p[2].0) && PlainValue(p[2].1);
  }

  lemma StealthPairsPlain()
    ensures forall i :: 0 <= i < |StealthPairs()| ==> PlainKey(StealthPairs()[i].0) && PlainValue(StealthPairs()[i].1)
  {
    var p := StealthPairs();
    assert PlainKey(p[0].0) && PlainValue(p[0].1);
    assert PlainKey(p[1].0) && PlainValue(p[1].1);
    assert PlainKey(p[2].0) && PlainValue(p[2].1);
    assert PlainKey(p[3].0) && PlainValue(p[3].1);
  }

  lemma ScreenPairsPlain()
    ensures forall i :: 0 <= i < |ScreenPairs()| ==> PlainKey(ScreenPairs()[i].0) && PlainValue(ScreenPairs()[i].1)
  {
    var p := ScreenPairs();
    assert PlainKey(p[0].0) && PlainValue(p[0].1);
    assert PlainKey(p[1].0) && PlainValue(p[1].1);
    assert PlainKey(p[2].0) && PlainValue(p[2].1);
  }

  /** A block followed by a blank line, parsed after some prefix, adds its
      section to whatever the prefix produced. */
  lemma BlockThenBlank(s0: ParseState, prefix: seq<string>, name: string, pairs: seq<(string, string)>)
    requires WellFormed(s0) && name != []
    requires forall i :: 0 <= i < |pairs| ==> PlainKey(pairs[i].0) && PlainValue(pairs[i].1)
    ensures ParseLines(s0, prefix + (["[" + name + "]"] + PairLines(pairs)) + [""]).sections ==
      ParseLines(s0, prefix).sections[name := EmptySection(name).(settings := PairsMap(pairs))]
  {
    var block := ["[" + name + "]"] + PairLines(pairs);
    ParseLinesAppend(s0, prefix, block);
    BlockParse(ParseLines(s0, prefix), name, pairs);
    ParseLinesAppend(s0, prefix + block, [""]);
    SkippedLines(ParseLines(s0, prefix + block), [""]);
  }

  /** A section block, header to blank line, holds no newline when its
      name and its pairs hold none. */
  lemma BlockHasNoNewline(name: string, pairs: seq<(string, string)>)
    requires '\n' !in name
    requires forall i :: 0 <= i < |pairs| ==> PlainKey(pairs[i].0) && PlainValue(pairs[i].1)
    ensures forall l :: l in (["[" + name + "]"] + PairLines(pairs)) + [""] ==> '\n' !in l
  {
    forall i | 0 <= i < |pairs|
      ensures '\n' !in PairLines(pairs)[i]
    {
      var k, v := pairs[i].0, pairs[i].1;
      assert '\n' !in k && '\n' !in v;
      assert PairLines(pairs)[i] == k + "=" + v;
    }
  }

  lemma CommentLinesHaveNoNewline()
    ensures forall l :: l in CommentLines() ==> '\n' !in l
  {
    assert '\n' !in "# Masoudy Dictionary Configuration File";
    assert '\n' !in "# Generated automatically";
  }

  lemma DefaultLinesHaveNoNewline()
    ensures forall l :: l in ThroughScreenSharing() ==> '\n' !in l
  {
    AuthPairsPlain();
    NetworkPairsPlain();
    StealthPairsPlain();
    ScreenPairsPlain();
    BlockHasNoNewline("Authentication", AuthPairs());
    BlockHasNoNewline("Network", NetworkPairs());
    BlockHasNoNewline("Stealth", StealthPairs());
    BlockHasNoNewline("ScreenSharing", ScreenPairs());
    CommentLinesHaveNoNewline();
  }

  /** Splitting the default text gives back the lines written. */
  lemma DefaultLines()
    ensures Lines(GenerateDefaultConfig()) == DefaultConfigLines()
  {
    DefaultLinesSplit();
    DefaultLinesHaveNoNewline();
    var ls := DefaultConfigLines();
    forall i | 0 <= i < |ls|
      ensures '\n' !in ls[i]
    {
      assert ls[i] in ThroughScreenSharing();
    }
    LinesOfUnlines(ls);
  }

  // The default lines, cut after each section's trailing blank line, and
  // the sections parsed so far.

  function Start(): ParseState { ParseState("", map[], []) }

  function CommentLines(): seq<string>
  {
    ["# Masoudy Dictionary Configuration File", "# Generated automatically", ""]
  }

  function ThroughAuthentication(): seq<string> { CommentLines() + (["[Authentication]"] + PairLines(AuthPairs())) + [""] }
  function ThroughNetwork(): seq<string> { ThroughAuthentication() + (["[Network]"] + PairLines(NetworkPairs())) + [""] }
  function ThroughStealth(): seq<string> { ThroughNetwork() + (["[Stealth]"] + PairLines(StealthPairs())) + [""] }
  function ThroughScreenSharing(): seq<string> { ThroughStealth() + (["[ScreenSharing]"] + PairLines(ScreenPairs())) + [""] }

  function AuthenticationParsed(): map<string, ConfigSection>
  {
    map["Authentication" := EmptySection("Authentication").(settings := PairsMap(AuthPairs()))]
  }

  function NetworkParsed(): map<string, ConfigSection>
  {
    AuthenticationParsed()["Network" := EmptySection("Network").(settings := PairsMap(NetworkPairs()))]
  }

  function StealthParsed(): map<string, ConfigSection>
  {
    NetworkParsed()["Stealth" := EmptySection("Stealth").(settings := PairsMap(StealthPairs()))]
  }

  lemma AuthenticationBlockParses()
    ensures ParseLines(Start(), ThroughAuthentication()).sections == AuthenticationParsed()
  {
    SkippedLines(Start(), CommentLines());
    AuthPairsPlain();
    assert "[" + "Authentication" + "]" == "[Authentication]";
    BlockThenBlank(Start(), CommentLines(), "Authentication", AuthPairs());
  }

  lemma NetworkBlockParses()
    ensures ParseLines(Start(), ThroughNetwork()).sections == NetworkParsed()
  {
    AuthenticationBlockParses();
    NetworkPairsPlain();
    assert "[" + "Network" + "]" == "[Network]";
    BlockThenBlank(Start(), ThroughAuthentication(), "Network", NetworkPairs());
  }

  lemma StealthBlockParses()
    ensures ParseLines(Start(), ThroughStealth()).sections == StealthParsed()
  {
    NetworkBlockParses();
    StealthPairsPlain();
    assert "[" + "Stealth" + "]" == "[Stealth]";
    BlockThenBlank(Start(), ThroughNetwork(), "Stealth", StealthPairs());
  }

  lemma ScreenSharingBlockParses()
    ensures ParseLines(Start(), ThroughScreenSharing()).sections == DefaultSections()
  {
    StealthBlockParses();
    ScreenPairsPlain();
    assert "[" + "ScreenSharing" + "]" == "[ScreenSharing]";
    BlockThenBlank(Start(), ThroughStealth(), "ScreenSharing", ScreenPairs());
  }

  /** Starting from a validator with no sections, the default lines yield
      exactly the four default sections. */
  lemma DefaultConfigParses()
    ensures ParseLines(Start(), DefaultConfigLines()).sections == DefaultSections()
  {
    DefaultLinesSplit();
    ScreenSharingBlockParses();
  }

  /** An integer rule with both bounds accepts a value between them. */
  lemma IntWithin(name: string, value: string, lo: string, hi: string, n: int, a: int, b: int)
    requires StoI(value) == Some(n) && StoI(lo) == Some(a) && StoI(hi) == Some(b)
    requires lo != [] && hi != [] && a <= n <= b
    ensures ValueAccepted(value, IntRule(name, lo, hi))
  {
  }

  /** A boolean rule accepts the spelling "true" or "false". */
  lemma BoolAccepted(name: string, value: string)
    requires value == "true" || value == "false"
    ensures ValueAccepted(value, BoolRule(name))
  {
    assert ToLower(value) == value;
  }

  /** A rule list all of whose settings are present and accepted pushes no error. */
  lemma RulesPass(rules: seq<Rule>, settings: map<string, string>)
    requires forall i :: 0 <= i < |rules| ==>
      rules[i].settingName in settings && ValueAccepted(settings[rules[i].settingName], rules[i])
    ensures SectionErrors(rules, settings) == []
  {
    SectionErrorsCount(rules, settings);
  }

  /** A section with three rules, each satisfied, is VALID. */
  lemma ThreeRulesPass(name: string, settings: map<string, string>, r0: Rule, r1: Rule, r2: Rule)
    requires name in ValidationRules() && ValidationRules()[name] == [r0, r1, r2]
    requires r0.settingName in settings && ValueAccepted(settings[r0.settingName], r0)
    requires r1.settingName in settings && ValueAccepted(settings[r1.settingName], r1)
    requires r2.settingName in settings && ValueAccepted(settings[r2.settingName], r2)
    ensures Verdict(name, settings) == Valid
  {
    var rules := [r0, r1, r2];
    forall i | 0 <= i < |rules|
      ensures rules[i].settingName in settings && ValueAccepted(settings[rules[i].settingName], rules[i])
    {
      assert i == 0 || i == 1 || i == 2;
    }
    RulesPass(rules, settings);
  }

  /** A section with four rules, each satisfied, is VALID. */
  lemma FourRulesPass(name: string, settings: map<string, string>, r0: Rule, r1: Rule, r2: Rule, r3: Rule)
    requires name in ValidationRules() && ValidationRules()[name] == [r0, r1, r2, r3]
    requires r0.settingName in settings && ValueAccepted(settings[r0.settingName], r0)
    requires r1.settingName in settings && ValueAccepted(settings[r1.settingName], r1)
    requires r2.settingName in settings && ValueAccepted(settings[r2.settingName], r2)
    requires r3.settingName in settings && ValueAccepted(settings[r3.settingName], r3)
    ensures Verdict(name, settings) == Valid
  {
    var rules := [r0, r1, r2, r3];
    forall i | 0 <= i < |rules|
      ensures rules[i].settingName in settings && ValueAccepted(settings[rules[i].settingName], rules[i])
    {
      assert i == 0 || i == 1 || i == 2 || i == 3;
    }
    RulesPass(rules, settings);
  }

  lemma AuthSettings()
    ensures PairsMap(AuthPairs()) == map["enabled" := "true", "max_attempts" := "3", "lockout_duration" := "15"]
  {
    var a := AuthPairs();
    assert a[..2][..1] == a[..1] && a[..1][..0] == [] && a[..3] == a;
    assert PairsMap(a[..1]) == map[a[0].0 := a[0].1];
    assert PairsMap(a[..2]) == map[a[0].0 := a[0].1, a[1].0 := a[1].1];
  }

  lemma NetworkSettings()
    ensures PairsMap(NetworkPairs()) == map["port" := "8080", "timeout" := "30", "encryption" := "AES"]
  {
    var a := NetworkPairs();
    assert a[..2][..1] == a[..1] && a[..1][..0] == [] && a[..3] == a;
    assert PairsMap(a[..1]) == map[a[0].0 := a[0].1];
    assert PairsMap(a[..2]) == map[a[0].0 := a[0].1, a[1].0 := a[1].1];
  }

  lemma StealthSettings()
    ensures PairsMap(StealthPairs()) == map["process_injection" := "true", "memory_protection" := "true",
                                            "network_obfuscation" := "true", "exam_mode" := "false"]
  {
    var a := StealthPairs();
    assert a[..3][..2] == a[..2] && a[..2][..1] == a[..1] && a[..1][..0] == [] && a[..4] == a;
    assert PairsMap(a[..1]) == map[a[0].0 := a[0].1];
    assert PairsMap(a[..2]) == map[a[0].0 := a[0].1, a[1].0 := a[1].1];
    assert PairsMap(a[..3]) == map[a[0].0 := a[0].1, a[1].0 := a[1].1, a[2].0 := a[2].1];
  }

  lemma ScreenSettings()
    ensures PairsMap(ScreenPairs()) == map["quality" := "80", "frame_rate" := "30", "compression" := "JPEG"]
  {
    var a := ScreenPairs();
    assert a[..2][..1] == a[..1] && a[..1][..0] == [] && a[..3] == a;
    assert PairsMap(a[..1]) == map[a[0].0 := a[0].1];
    assert PairsMap(a[..2]) == map[a[0].0 := a[0].1, a[1].0 := a[1].1];
  }

  lemma AuthRules()
    ensures "Authentication" in ValidationRules()
    ensures ValidationRules()["Authentication"] ==
      [BoolRule("enabled"), IntRule("max_attempts", "1", "10"), IntRule("lockout_duration", "1", "60")]
  {
  }

  lemma AuthSectionValid()
    ensures Verdict("Authentication", PairsMap(AuthPairs())) == Valid
  {
    var s := PairsMap(AuthPairs());
    var r0, r1, r2 := BoolRule("enabled"), IntRule("max_attempts", "1", "10"), IntRule("lockout_duration", "1", "60");
    assert "enabled" in s && ValueAccepted(s["enabled"], r0) by {
      AuthSettings();
      BoolAccepted("enabled", "true");
    }
    assert "max_attempts" in s && ValueAccepted(s["max_attempts"], r1) by {
      AuthSettings();
      Decimal1(); Decimal3(); Decimal10();
      IntWithin("max_attempts", "3", "1", "10", 3, 1, 10);
    }
    assert "lockout_duration" in s && ValueAccepted(s["lockout_duration"], r2) by {
      AuthSettings();
      Decimal1(); Decimal15(); Decimal60();
      IntWithin("lockout_duration", "15", "1", "60", 15, 1, 60);
    }
    assert "Authentication" in ValidationRules() && ValidationRules()["Authentication"] == [r0, r1, r2] by {
      AuthRules();
    }
    ThreeRulesPass("Authentication", s, r0, r1, r2);
  }

  lemma NetworkPortAccepted()
    ensures "port" in PairsMap(NetworkPairs())
      && ValueAccepted(PairsMap(NetworkPairs())["port"], IntRule("port", "1024", "65535"))
  {
    NetworkSettings();
    Decimal1024(); Decimal8080(); Decimal65535();
    IntWithin("port", "8080", "1024", "65535", 8080, 1024, 65535);
  }

  lemma NetworkTimeoutAccepted()
    ensures "timeout" in PairsMap(NetworkPairs())
      && ValueAccepted(PairsMap(NetworkPairs())["timeout"], IntRule("timeout", "1", "300"))
  {
    NetworkSettings();
    Decimal1(); Decimal30(); Decimal300();
    IntWithin("timeout", "30", "1", "300", 30, 1, 300);
  }

  lemma NetworkSectionValid()
    ensures Verdict("Network", PairsMap(NetworkPairs())) == Valid
  {
    var s := PairsMap(NetworkPairs());
    var r0, r1, r2 := IntRule("port", "1024", "65535"), IntRule("timeout", "1", "300"),
                      StringRule("encryption", ["AES", "RSA", "none"]);
    NetworkPortAccepted();
    NetworkTimeoutAccepted();
    assert "encryption" in s && ValueAccepted(s["encryption"], r2) by {
      NetworkSettings();
    }
    ThreeRulesPass("Network", s, r0, r1, r2);
  }

  lemma StealthSectionValid()
    ensures Verdict("Stealth", PairsMap(StealthPairs())) == Valid
  {
    var s := PairsMap(StealthPairs());
    var r0, r1, r2, r3 := BoolRule("process_injection"), BoolRule("memory_protection"),
                          BoolRule("network_obfuscation"), BoolRule("exam_mode");
    assert "process_injection" in s && ValueAccepted(s["process_injection"], r0) by {
      StealthSettings();
      BoolAccepted("process_injection", "true");
    }
    assert "memory_protection" in s && ValueAccepted(s["memory_protection"], r1) by {
      StealthSettings();
      BoolAccepted("memory_protection", "true");
    }
    assert "network_obfuscation" in s && ValueAccepted(s["network_obfuscation"], r2) by {
      StealthSettings();
      BoolAccepted("network_obfuscation", "true");
    }
    assert "exam_mode" in s && ValueAccepted(s["exam_mode"], r3) by {
      StealthSettings();
      BoolAccepted("exam_mode", "false");
    }
    FourRulesPass("Stealth", s, r0, r1, r2, r3);
  }

  lemma ScreenQualityAccepted()
    ensures "quality" in PairsMap(ScreenPairs())
      && ValueAccepted(PairsMap(ScreenPairs())["quality"], IntRule("quality", "1", "100"))
  {
    ScreenSettings();
    Decimal1(); Decimal80(); Decimal100();
    IntWithin("quality", "80", "1", "100", 80, 1, 100);
  }

  lemma ScreenFrameRateAccepted()
    ensures "frame_rate" in PairsMap(ScreenPairs())
      && ValueAccepted(PairsMap(ScreenPairs())["frame_rate"], IntRule("frame_rate", "1", "60"))
  {
    ScreenSettings();
    Decimal1(); Decimal30(); Decimal60();
    IntWithin("frame_rate", "30", "1", "60", 30, 1, 60);
  }

  lemma ScreenSectionValid()
    ensures Verdict("ScreenSharing", PairsMap(ScreenPairs())) == Valid
  {
    var s := PairsMap(ScreenPairs());
    var r0, r1, r2 := IntRule("quality", "1", "100"), IntRule("frame_rate", "1", "60"),
                      StringRule("compression", ["JPEG", "PNG", "none"]);
    ScreenQualityAccepted();
    ScreenFrameRateAccepted();
    assert "compression" in s && ValueAccepted(s["compression"], r2) by {
      ScreenSettings();
    }
    ThreeRulesPass("ScreenSharing", s, r0, r1, r2);
  }

  /** Every default section satisfies every rule of its table, so the
      validator judges each one VALID with no error and no warning. */
  lemma DefaultSectionsValid()
    ensures forall k :: k in DefaultSections() ==>
      && DefaultSections()[k].errors == [] && DefaultSections()[k].warnings == []
      && Verdict(k, DefaultSections()[k].settings) == Valid
      && SectionErrs(k, DefaultSections()[k].settings) == []
      && SectionWarns(k) == []
  {
    var secs := DefaultSections();
    forall k | k in secs
      ensures secs[k].errors == [] && secs[k].warnings == []
      ensures Verdict(k, secs[k].settings) == Valid && SectionErrs(k, secs[k].settings) == []
    {
      if k == "Authentication" {
        AuthSectionValid();
      } else if k == "Network" {
        NetworkSectionValid();
      } else if k == "Stealth" {
        StealthSectionValid();
      } else {
        assert k == "ScreenSharing";
        ScreenSectionValid();
      }
    }
  }
}
