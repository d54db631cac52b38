/** The pure layer of the configuration validator: the fixed rule table,
    the value checks, what one line of INI text does to the parsed
    sections, the verdict on one section and the fold of the verdicts
    into an overall result. The class in config_validator.dfy runs these
    step by step and is proved against them. */
module ConfigRules {
  import opened Text

  datatype ValidationResult = Valid | Invalid | Warning | Critical

  /** Severity order used by the overall verdict: VALID < WARNING < INVALID < CRITICAL. */
  function Rank(r: ValidationResult): nat
  {
    match r
    case Valid => 0
    case Warning => 1
    case Invalid => 2
    case Critical => 3
  }

  /** One step of the overall fold in validateConfiguration. */
  function Combine(overall: ValidationResult, section: ValidationResult): (r: ValidationResult)
    ensures Rank(r) == if Rank(section) > Rank(overall) then Rank(section) else Rank(overall)
    ensures r == overall || r == section
  {
    if section == Critical then Critical
    else if section == Invalid && overall != Critical then Invalid
    else if section == Warning && overall == Valid then Warning
    else overall
  }

  datatype ValueType = StringValue | IntegerValue | BooleanValue

  datatype Rule = Rule(settingName: string, expectedType: ValueType, minValue: string,
                       maxValue: string, allowedValues: seq<string>, required: bool)

  datatype ConfigSection = ConfigSection(name: string, settings: map<string, string>,
                                         validationResult: ValidationResult,
                                         errors: seq<string>, warnings: seq<string>)

  /** A value-initialised section (`ConfigSection()`, or what `operator[]`
      inserts): empty settings, VALID, no messages. */
  function EmptySection(name: string): ConfigSection
  {
    ConfigSection(name, map[], Valid, [], [])
  }

  function BoolRule(name: string): Rule { Rule(name, BooleanValue, "", "", ["true", "false"], true) }
  function IntRule(name: string, lo: string, hi: string): Rule { Rule(name, IntegerValue, lo, hi, [], true) }
  function StringRule(name: string, allowed: seq<string>): Rule { Rule(name, StringValue, "", "", allowed, true) }

  /** The table built by setupValidationRules. */
  function ValidationRules(): map<string, seq<Rule>>
  {
    map[
      "Authentication" := [BoolRule("enabled"), IntRule("max_attempts", "1", "10"),
                           IntRule("lockout_duration", "1", "60")],
      "Network" := [IntRule("port", "1024", "65535"), IntRule("timeout", "1", "300"),
                    StringRule("encryption", ["AES", "RSA", "none"])],
      "Stealth" := [BoolRule("process_injection"), BoolRule("memory_protection"),
                    BoolRule("network_obfuscation"), BoolRule("exam_mode")],
      "ScreenSharing" := [IntRule("quality", "1", "100"), IntRule("frame_rate", "1", "60"),
                          StringRule("compression", ["JPEG", "PNG", "none"])]
    ]
  }

  /** The rule table covers exactly the four known sections, each with at
      least three rules, and every rule is required. */
  lemma RuleTable()
    ensures ValidationRules().Keys == {"Authentication", "Network", "Stealth", "ScreenSharing"}
    ensures forall name :: name in ValidationRules() ==> |ValidationRules()[name]| >= 3
    ensures forall name, i :: name in ValidationRules() && 0 <= i < |ValidationRules()[name]| ==>
      ValidationRules()[name][i].required
  {
  }

  /** validateString: a member of the allowed list when there is one, else non-empty. */
  function ValidateString(value: string, rule: Rule): (ok: bool)
    ensures rule.allowedValues != [] ==> (ok <==> value in rule.allowedValues)
    ensures rule.allowedValues == [] ==> (ok <==> value != [])
  {
    if rule.allowedValues != [] then value in rule.allowedValues else value != []
  }

  /** validateInteger: `std::stoi` of the value must succeed, and each
      non-empty bound must itself parse and hold inclusively; any
      exception makes the value invalid. */
  function ValidateInteger(value: string, rule: Rule): (ok: bool)
    ensures ok ==> StoI(value).Some?
    ensures rule.minValue == [] && rule.maxValue == [] ==> (ok <==> StoI(value).Some?)
  {
    match StoI(value)
    case None => false
    case Some(n) =>
      (rule.minValue == [] || (StoI(rule.minValue).Some? && n >= StoI(rule.minValue).value)) &&
      (rule.maxValue == [] || (StoI(rule.maxValue).Some? && n <= StoI(rule.maxValue).value))
  }

  /** validateBoolean: the lower-cased value is "true" or "false"; the
      rule's allowed list is not consulted. */
  function ValidateBoolean(value: string, rule: Rule): (ok: bool)
    ensures ok ==> |value| == 4 || |value| == 5
    ensures value == "true" || value == "false" ==> ok
  {
    var lower := ToLower(value);
    lower == "true" || lower == "false"
  }

  function ValueAccepted(value: string, rule: Rule): bool
  {
    match rule.expectedType
    case StringValue => ValidateString(value, rule)
    case IntegerValue => ValidateInteger(value, rule)
    case BooleanValue => ValidateBoolean(value, rule)
  }

  /** An integer rule with readable bounds accepts exactly the values
      `std::stoi` reads as a number within them, inclusive. */
  lemma IntegerRuleAccepts(value: string, name: string, lo: string, hi: string)
    requires StoI(lo).Some? && StoI(hi).Some?
    ensures ValueAccepted(value, IntRule(name, lo, hi)) <==>
      StoI(value).Some? && StoI(lo).value <= StoI(value).value <= StoI(hi).value
  {
  }

  /** Whatever follows the digits of an integer value is ignored. */
  lemma IntegerTrailingJunk(digits: string, junk: string, rule: Rule)
    requires |digits| > 0 && AllDigits(digits) && (junk == [] || !IsDigit(junk[0]))
    requires rule.expectedType == IntegerValue
    ensures ValueAccepted(digits + junk, rule) == ValueAccepted(digits, rule)
  {
    StoITrailingJunk(digits, junk);
  }

  /** A boolean rule accepts "true" and "false" in any letter case and
      nothing else. */
  lemma BooleanRuleAccepts(value: string, name: string)
    ensures ValueAccepted(value, BoolRule(name)) <==> ToLower(value) == "true" || ToLower(value) == "false"
    ensures ValueAccepted("TRUE", BoolRule(name)) && ValueAccepted("False", BoolRule(name))
    ensures !ValueAccepted("1", BoolRule(name))
  {
    assert ToLower("TRUE") == "true";
    assert ToLower("False") == "false";
    assert ToLower("1") == "1";
  }

  // The message prefixes validateSection pushes.
  const RequiredMissing := "Required setting missing: "
  const InvalidValue := "Invalid value for "
  const UnknownSection := "Unknown section: "

  /** The error message one rule contributes for a section's settings. */
  function RuleErrors(rule: Rule, settings: map<string, string>): (msgs: seq<string>)
    ensures |msgs| <= 1
    ensures msgs != [] <==> RuleFails(rule, settings)
  {
    if rule.required && rule.settingName !in settings then
      [RequiredMissing + rule.settingName]
    else if rule.settingName in settings && !ValueAccepted(settings[rule.settingName], rule) then
      [InvalidValue + rule.settingName + ": " + settings[rule.settingName]]
    else []
  }

  predicate RuleFails(rule: Rule, settings: map<string, string>)
  {
    (rule.required && rule.settingName !in settings)
    || (rule.settingName in settings && !ValueAccepted(settings[rule.settingName], rule))
  }

  /** Positions of the rules that fail for the given settings. */
  function FailingIndices(rules: seq<Rule>, settings: map<string, string>): set<nat>
  {
    set i: nat | i < |rules| && RuleFails(rules[i], settings)
  }

  /** The errors the rule loop pushes, in rule order. */
  function SectionErrors(rules: seq<Rule>, settings: map<string, string>): seq<string>
  {
    if rules == [] then []
    else SectionErrors(rules[..|rules| - 1], settings) + RuleErrors(rules[|rules| - 1], settings)
  }

  /** One more rule checked. */
  lemma SectionErrorsSnoc(rules: seq<Rule>, i: nat, settings: map<string, string>)
    requires i < |rules|
    ensures SectionErrors(rules[..i + 1], settings) == SectionErrors(rules[..i], settings) + RuleErrors(rules[i], settings)
  {
    assert rules[..i + 1][..i] == rules[..i];
  }

  /** The number of errors is the number of failing rules, so the section
      has no error iff no rule fails. */
  lemma {:induction false} SectionErrorsCount(rules: seq<Rule>, settings: map<string, string>)
    ensures |SectionErrors(rules, settings)| == |FailingIndices(rules, settings)|
    ensures SectionErrors(rules, settings) == [] <==> forall i :: 0 <= i < |rules| ==> !RuleFails(rules[i], settings)
  {
    if rules != [] {
      var n := |rules| - 1;
      var init := rules[..n];
      SectionErrorsCount(init, settings);
      FailingIndicesSnoc(rules, settings);
    }
  }

  lemma FailingIndicesSnoc(rules: seq<Rule>, settings: map<string, string>)
    requires rules != []
    ensures var n := |rules| - 1;
      FailingIndices(rules, settings) ==
        FailingIndices(rules[..n], settings) + (if RuleFails(rules[n], settings) then {n} else {})
  {
    var n := |rules| - 1;
    var before := FailingIndices(rules[..n], settings);
    var extra: set<nat> := if RuleFails(rules[n], settings) then {n} else {};
    forall i: nat ensures i in FailingIndices(rules, settings) <==> i in before + extra {
      if i < n { assert rules[..n][i] == rules[i]; }
    }
  }

  /** Errors validateSection pushes for a section name. */
  function SectionErrs(name: string, settings: map<string, string>): seq<string>
  {
    if name in ValidationRules() then SectionErrors(ValidationRules()[name], settings) else []
  }

  /** Warnings validateSection pushes for a section name. */
  function SectionWarns(name: string): seq<string>
  {
    if name in ValidationRules() then [] else [UnknownSection + name]
  }

  /** validateSection's return value. */
  function Verdict(name: string, settings: map<string, string>): (v: ValidationResult)
    ensures v != Critical
    ensures v == Warning <==> name !in ValidationRules()
  {
    if name !in ValidationRules() then Warning
    else if SectionErrors(ValidationRules()[name], settings) == [] then Valid
    else Invalid
  }

  /** A section without rules gets WARNING, one "Unknown section" warning and no error. */
  lemma UnknownSectionVerdict(name: string, settings: map<string, string>)
    requires name !in ValidationRules()
    ensures Verdict(name, settings) == Warning
    ensures SectionWarns(name) == [UnknownSection + name] && SectionErrs(name, settings) == []
  {
  }

  /** A known section is INVALID iff some rule fails, with one error per
      failing rule, and VALID otherwise; no section is ever CRITICAL. */
  lemma KnownSectionVerdict(name: string, settings: map<string, string>)
    requires name in ValidationRules()
    ensures var rules := ValidationRules()[name];
      && (Verdict(name, settings) == Invalid <==> exists i :: 0 <= i < |rules| && RuleFails(rules[i], settings))
      && (Verdict(name, settings) == Valid <==> !exists i :: 0 <= i < |rules| && RuleFails(rules[i], settings))
      && |SectionErrs(name, settings)| == |FailingIndices(rules, settings)|
      && SectionWarns(name) == []
  {
    SectionErrorsCount(ValidationRules()[name], settings);
  }

  // ---------------------------------------------------------------------
  // Parsing the text, one line at a time.

  /** What the parse loop carries: the current section name and the
      validator's sections together with their keys in map order. */
  datatype ParseState = ParseState(current: string, sections: map<string, ConfigSection>,
                                   order: seq<string>)

  ghost predicate WellFormed(st: ParseState)
  {
    && StrictlySorted(st.order)
    && (forall k :: k in st.order <==> k in st.sections)
    && (st.current != [] ==> st.current in st.sections)
  }

  /** Empty lines and lines starting with '#' or ';' are skipped. */
  predicate IsSkipped(line: string)
  {
    line == [] || line[0] == '#' || line[0] == ';'
  }

  predicate IsHeader(line: string)
  {
    |line| > 0 && line[0] == '[' && line[|line| - 1] == ']'
  }

  /** The section name between the brackets of a header line. */
  function HeaderName(line: string): string
    requires IsHeader(line)
  {
    line[1..|line| - 1]
  }

  /** The keys in map order after `operator[]` has touched `name`. */
  function WithKey(order: seq<string>, sections: map<string, ConfigSection>, name: string): (r: seq<string>)
    requires StrictlySorted(order) && (forall k :: k in order <==> k in sections)
    ensures StrictlySorted(r) && (forall k :: k in r <==> k in sections || k == name)
  {
    if name in sections then order else InsertSorted(order, name)
  }

  /** One iteration of the getline loop of validateConfiguration. */
  function ParseLine(st: ParseState, line: string): (r: ParseState)
    requires WellFormed(st)
    ensures WellFormed(r)
  {
    if IsSkipped(line) then st
    else if IsHeader(line) then
      var name := HeaderName(line);
      ParseState(name, st.sections[name := EmptySection(name)], WithKey(st.order, st.sections, name))
    else match Find(line, '=')
      case None => st
      case Some(pos) =>
        if st.current == [] then st
        else
          var sec := st.sections[st.current];
          var key := Trim(line[..pos]);
          var value := Trim(line[pos + 1..]);
          st.(sections := st.sections[st.current := sec.(settings := sec.settings[key := value])])
  }

  function ParseLines(st: ParseState, lines: seq<string>): (r: ParseState)
    requires WellFormed(st)
    ensures WellFormed(r)
  {
    if lines == [] then st
    else ParseLine(ParseLines(st, lines[..|lines| - 1]), lines[|lines| - 1])
  }

  /** Comment and blank lines leave the parse untouched. */
  lemma SkippedLineChangesNothing(st: ParseState, line: string)
    requires WellFormed(st) && IsSkipped(line)
    ensures ParseLine(st, line) == st
  {
  }

  /** A header, new or repeated, makes its section current and resets it
      to an empty section; no other section changes. */
  lemma HeaderResetsSection(st: ParseState, line: string)
    requires WellFormed(st) && !IsSkipped(line) && IsHeader(line)
    ensures var r := ParseLine(st, line);
      && r.current == HeaderName(line)
      && r.sections[HeaderName(line)] == EmptySection(HeaderName(line))
      && forall k :: k in st.sections && k != HeaderName(line) ==> k in r.sections && r.sections[k] == st.sections[k]
  {
  }

  /** A `key=value` line is split at its first '=', both halves are
      trimmed of spaces and tabs, and the pair is stored in the current
      section only; without a current section nothing changes. */
  lemma KeyValueStored(st: ParseState, key: string, value: string)
    requires WellFormed(st)
    requires '=' !in key && !IsSkipped(key + "=" + value) && !IsHeader(key + "=" + value)
    ensures var r := ParseLine(st, key + "=" + value);
      && r.current == st.current && r.order == st.order
      && (st.current == [] ==> r == st)
      && (st.current != [] ==>
            r.sections == st.sections[st.current := st.sections[st.current].(
              settings := st.sections[st.current].settings[Trim(key) := Trim(value)])])
  {
    var line := key + "=" + value;
    FindAfterPrefix(key, "=" + value, '=');
    assert line == key + ("=" + value);
    assert line[..|key|] == key;
    assert line[|key| + 1..] == value;
    assert !IsSkipped(line) && !IsHeader(line);
  }

  /** A line such as "=v" is stored too, under the empty key. */
  lemma EmptyKeyStored(st: ParseState, value: string)
    requires WellFormed(st) && st.current != []
    ensures var r := ParseLine(st, "=" + value);
      st.current in r.sections && r.sections[st.current].settings == st.sections[st.current].settings[[] := Trim(value)]
  {
    assert [] + "=" + value == "=" + value;
    KeyValueStored(st, [], value);
  }

  // ---------------------------------------------------------------------
  // Judging the parsed sections.

  /** validateSection's pushes: appended to the named section; a missing
      section is created by `operator[]` (with an empty name) only when
      something is pushed. */
  function Pushed(secs: map<string, ConfigSection>, name: string, errs: seq<string>,
                  warns: seq<string>): (r: map<string, ConfigSection>)
    ensures r.Keys == if name in secs || errs != [] || warns != [] then secs.Keys + {name} else secs.Keys
  {
    if name in secs then
      secs[name := secs[name].(errors := secs[name].errors + errs, warnings := secs[name].warnings + warns)]
    else if errs == [] && warns == [] then secs
    else secs[name := EmptySection("").(errors := errs, warnings := warns)]
  }

  /** Pushing nothing changes nothing. */
  lemma PushedNothing(secs: map<string, ConfigSection>, name: string)
    ensures Pushed(secs, name, [], []) == secs
  {
    if name in secs {
      var none: seq<string> := [];
      assert secs[name].errors + none == secs[name].errors;
      assert secs[name].warnings + none == secs[name].warnings;
    }
  }

  /** Two pushes of errors in a row are one push of both. */
  lemma PushedTwice(secs: map<string, ConfigSection>, name: string, e1: seq<string>, e2: seq<string>)
    ensures Pushed(Pushed(secs, name, e1, []), name, e2, []) == Pushed(secs, name, e1 + e2, [])
  {
    if name in secs {
      var none: seq<string> := [];
      assert secs[name].errors + e1 + e2 == secs[name].errors + (e1 + e2);
      assert secs[name].warnings + none + none == secs[name].warnings + none;
    } else if e1 == [] {
      assert e1 + e2 == e2;
    } else {
      var w: seq<string> := [];
      assert w + w == w;
      assert e1 + e2 != [];
    }
  }

  /** The section as the overall loop leaves it: validateSection's pushes
      and its verdict stored. */
  function Judge(name: string, sec: ConfigSection): ConfigSection
  {
    sec.(errors := sec.errors + SectionErrs(name, sec.settings),
         warnings := sec.warnings + SectionWarns(name),
         validationResult := Verdict(name, sec.settings))
  }

  /** validateSection's pushes on a known section followed by storing its
      verdict amount to Judge. */
  lemma PushedThenJudged(secs: map<string, ConfigSection>, name: string)
    requires name in secs
    ensures var p := Pushed(secs, name, SectionErrs(name, secs[name].settings), SectionWarns(name));
      name in p &&
      p[name := p[name].(validationResult := Verdict(name, secs[name].settings))]
        == secs[name := Judge(name, secs[name])]
  {
  }

  /** One section as clearValidationResults leaves it. */
  function ClearSection(name: string, sec: ConfigSection): ConfigSection
  {
    sec.(errors := [], warnings := [], validationResult := Valid)
  }

  /** clearValidationResults: messages dropped, verdicts reset, settings kept. */
  function Cleared(secs: map<string, ConfigSection>): (r: map<string, ConfigSection>)
    ensures r.Keys == secs.Keys
    ensures forall k :: k in r ==> r[k].settings == secs[k].settings && r[k].name == secs[k].name
                                   && r[k].errors == [] && r[k].warnings == [] && r[k].validationResult == Valid
  {
    map k | k in secs :: ClearSection(k, secs[k])
  }

  /** The overall verdict folded over the sections in map order. */
  function Overall(order: seq<string>, secs: map<string, ConfigSection>): ValidationResult
    requires forall k :: k in order ==> k in secs
  {
    if order == [] then Valid
    else Combine(Overall(order[..|order| - 1], secs), secs[order[|order| - 1]].validationResult)
  }

  /** One more section folded into the overall verdict. */
  lemma OverallSnoc(order: seq<string>, j: nat, secs: map<string, ConfigSection>)
    requires j < |order| && forall k :: k in order ==> k in secs
    ensures Overall(order[..j + 1], secs) == Combine(Overall(order[..j], secs), secs[order[j]].validationResult)
  {
    assert order[..j + 1][..j] == order[..j];
  }

  /** The overall verdict is the most severe section verdict (VALID when
      there is no section), so it is CRITICAL only if some section is. */
  lemma {:induction false} OverallIsWorst(order: seq<string>, secs: map<string, ConfigSection>)
    requires forall k :: k in order ==> k in secs
    ensures forall i :: 0 <= i < |order| ==> Rank(secs[order[i]].validationResult) <= Rank(Overall(order, secs))
    ensures Overall(order, secs) == Valid || exists i :: 0 <= i < |order| && secs[order[i]].validationResult == Overall(order, secs)
  {
    if order != [] {
      var init := order[..|order| - 1];
      OverallIsWorst(init, secs);
      assert forall i :: 0 <= i < |init| ==> init[i] == order[i];
    }
  }

  /** After a validateConfiguration run every section carries validateSection's
      verdict, which is never CRITICAL; so the overall result is never CRITICAL. */
  lemma OverallNeverCritical(order: seq<string>, secs: map<string, ConfigSection>)
    requires forall k :: k in order ==> k in secs
    requires forall k :: k in secs ==> secs[k].validationResult == Verdict(k, secs[k].settings)
    ensures Overall(order, secs) != Critical
  {
    OverallIsWorst(order, secs);
  }

  // ---------------------------------------------------------------------
  // The default configuration text.

  /** The lines generateDefaultConfig writes, each followed by "\n". */
  function DefaultConfigLines(): seq<string>
  {
    [ "# Masoudy Dictionary Configuration File", "# Generated automatically", "",
      "[Authentication]", "enabled=true", "max_attempts=3", "lockout_duration=15", "",
      "[Network]", "port=8080", "timeout=30", "encryption=AES", "",
      "[Stealth]", "process_injection=true", "memory_protection=true",
      "network_obfuscation=true", "exam_mode=false", "",
      "[ScreenSharing]", "quality=80", "frame_rate=30", "compression=JPEG", "" ]
  }

  function GenerateDefaultConfig(): string
  {
    Unlines(DefaultConfigLines())
  }
}
