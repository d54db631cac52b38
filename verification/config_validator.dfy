/** The configuration validator object: its sections map, the validation
    pass over INI text, the queries over the collected messages, the typed
    record checks and the configuration manager's read-side wrappers. Every
    method is proved against the pure layer in ConfigRules and
    ConfigRecords. */
module ConfigValidation {
  import opened Text
  import opened ConfigRules
  import opened ConfigRecords
  import opened DefaultConfig

  /** Which of a section's two message lists a query reads. */
  datatype MessageKind = Errors | Warnings

  function MessagesOf(sec: ConfigSection, kind: MessageKind): seq<string>
  {
    match kind
    case Errors => sec.errors
    case Warnings => sec.warnings
  }

  /** The messages of all sections concatenated in map order. */
  function AllMessages(order: seq<string>, secs: map<string, ConfigSection>, kind: MessageKind): seq<string>
    requires forall k :: k in order ==> k in secs
  {
    if order == [] then []
    else AllMessages(order[..|order| - 1], secs, kind) + MessagesOf(secs[order[|order| - 1]], kind)
  }

  /** A message is in the concatenation iff some section holds it. */
  lemma {:induction false} AllMessagesMembership(order: seq<string>, secs: map<string, ConfigSection>,
                                                 kind: MessageKind, m: string)
    requires forall k :: k in order ==> k in secs
    ensures m in AllMessages(order, secs, kind) <==>
            exists i :: 0 <= i < |order| && m in MessagesOf(secs[order[i]], kind)
  {
    if order != [] {
      var init := order[..|order| - 1];
      AllMessagesMembership(init, secs, kind, m);
      assert forall i :: 0 <= i < |init| ==> init[i] == order[i];
    }
  }

  /** Every section as the judging loop leaves it. */
  function JudgeAll(secs: map<string, ConfigSection>): (r: map<string, ConfigSection>)
    ensures r.Keys == secs.Keys
  {
    map k | k in secs :: Judge(k, secs[k])
  }

  /** The sections after the clearing has visited `keys`. */
  function ClearKeys(secs: map<string, ConfigSection>, keys: seq<string>): (r: map<string, ConfigSection>)
    requires forall k :: k in keys ==> k in secs
    ensures r.Keys == secs.Keys
  {
    if keys == [] then secs
    else
      var k := keys[|keys| - 1];
      ClearKeys(secs, keys[..|keys| - 1])[k := ClearSection(k, secs[k])]
  }

  lemma ClearKeysSnoc(secs: map<string, ConfigSection>, keys: seq<string>, j: nat)
    requires j < |keys| && forall k :: k in keys ==> k in secs
    ensures ClearKeys(secs, keys[..j + 1]) == ClearKeys(secs, keys[..j])[keys[j] := ClearSection(keys[j], secs[keys[j]])]
  {
    assert keys[..j + 1][..j] == keys[..j];
  }

  /** A visited entry is rewritten, an unvisited one is untouched. */
  lemma {:induction false} ClearKeysAt(secs: map<string, ConfigSection>, keys: seq<string>, k: string)
    requires forall x :: x in keys ==> x in secs
    requires k in secs
    ensures ClearKeys(secs, keys)[k] == if k in keys then ClearSection(k, secs[k]) else secs[k]
  {
    if keys != [] {
      var init := keys[..|keys| - 1];
      ClearKeysAt(secs, init, k);
      assert keys == init + [keys[|keys| - 1]];
    }
  }

  /** Visiting every key rewrites every entry. */
  lemma ClearKeysAll(secs: map<string, ConfigSection>, keys: seq<string>)
    requires forall k :: k in keys <==> k in secs
    ensures ClearKeys(secs, keys) == Cleared(secs)
  {
    forall k | k in secs ensures ClearKeys(secs, keys)[k] == Cleared(secs)[k] {
      ClearKeysAt(secs, keys, k);
    }
  }

  /** The sections after the judging has visited `keys`. */
  function JudgeKeys(secs: map<string, ConfigSection>, keys: seq<string>): (r: map<string, ConfigSection>)
    requires forall k :: k in keys ==> k in secs
    ensures r.Keys == secs.Keys
  {
    if keys == [] then secs
    else
      var k := keys[|keys| - 1];
      JudgeKeys(secs, keys[..|keys| - 1])[k := Judge(k, secs[k])]
  }

  lemma JudgeKeysSnoc(secs: map<string, ConfigSection>, keys: seq<string>, j: nat)
    requires j < |keys| && forall k :: k in keys ==> k in secs
    ensures JudgeKeys(secs, keys[..j + 1]) == JudgeKeys(secs, keys[..j])[keys[j] := Judge(keys[j], secs[keys[j]])]
  {
    assert keys[..j + 1][..j] == keys[..j];
  }

  /** A visited entry is rewritten, an unvisited one is untouched. */
  lemma {:induction false} JudgeKeysAt(secs: map<string, ConfigSection>, keys: seq<string>, k: string)
    requires forall x :: x in keys ==> x in secs
    requires k in secs
    ensures JudgeKeys(secs, keys)[k] == if k in keys then Judge(k, secs[k]) else secs[k]
  {
    if keys != [] {
      var init := keys[..|keys| - 1];
      JudgeKeysAt(secs, init, k);
      assert keys == init + [keys[|keys| - 1]];
    }
  }

  /** Visiting every key rewrites every entry. */
  lemma JudgeKeysAll(secs: map<string, ConfigSection>, keys: seq<string>)
    requires forall k :: k in keys <==> k in secs
    ensures JudgeKeys(secs, keys) == JudgeAll(secs)
  {
    forall k | k in secs ensures JudgeKeys(secs, keys)[k] == JudgeAll(secs)[k] {
      JudgeKeysAt(secs, keys, k);
    }
  }

  /** Every judged section carries validateSection's verdict on its settings. */
  lemma JudgeAllVerdicts(secs: map<string, ConfigSection>)
    ensures forall k :: k in JudgeAll(secs) ==>
      JudgeAll(secs)[k].validationResult == Verdict(k, JudgeAll(secs)[k].settings)
  {
  }

  /** The sections and key order validateConfiguration parses out of
      `text`, starting from the cleared sections of the previous run. */
  function Parsed(text: string, secs: map<string, ConfigSection>, order: seq<string>): (r: ParseState)
    requires StrictlySorted(order) && (forall k :: k in order <==> k in secs)
    ensures WellFormed(r)
  {
    ParseLines(ParseState("", Cleared(secs), order), Lines(text))
  }

  class ConfigValidator {
    /** The std::map of sections, with its keys in iteration order. */
    var sections: map<string, ConfigSection>
    var order: seq<string>
    /** The message lists the typed record checks fill. */
    var errors: seq<string>
    var warnings: seq<string>

    ghost predicate Valid()
      reads this
    {
      StrictlySorted(order) && (forall k :: k in order <==> k in sections)
    }

    constructor()
      ensures Valid()
      ensures sections == map[] && order == [] && errors == [] && warnings == []
    {
      sections := map[];
      order := [];
      errors := [];
      warnings := [];
    }

    /** clearValidationResults: every section loses its messages and is
        reset to VALID; settings and keys stay. */
    method ClearValidationResults()
      requires Valid()
      modifies this
      ensures Valid()
      ensures sections == Cleared(old(sections)) && order == old(order)
      ensures errors == old(errors) && warnings == old(warnings)
    {
      SortedDistinct(order);
      var i := 0;
      while i < |order|
        invariant 0 <= i <= |order| && order == old(order)
        invariant sections == ClearKeys(old(sections), order[..i])
        invariant errors == old(errors) && warnings == old(warnings)
      {
        var name := order[i];
        assert name !in order[..i];
        ClearKeysAt(old(sections), order[..i], name);
        ClearKeysSnoc(old(sections), order, i);
        sections := sections[name := sections[name].(errors := [], warnings := [], validationResult := ValidationResult.Valid)];
        i := i + 1;
      }
      assert order[..i] == order;
      ClearKeysAll(old(sections), order);
    }

    /** `sections[name]` followed by push_back on its errors and warnings. */
    method Push(name: string, errs: seq<string>, warns: seq<string>)
      requires Valid()
      modifies this
      ensures Valid()
      ensures sections == Pushed(old(sections), name, errs, warns)
      ensures name in old(sections) ==> order == old(order)
      ensures errors == old(errors) && warnings == old(warnings)
    {
      if name in sections {
        var sec := sections[name];
        sections := sections[name := sec.(errors := sec.errors + errs, warnings := sec.warnings + warns)];
      } else if errs != [] || warns != [] {
        order := InsertSorted(order, name);
        sections := sections[name := EmptySection("").(errors := errs, warnings := warns)];
      }
    }

    /** validateSection: an unknown section gets one warning and WARNING;
        otherwise one error per failing rule, in rule order, and INVALID
        iff there is one. */
    method ValidateSection(name: string, settings: map<string, string>) returns (result: ValidationResult)
      requires Valid()
      modifies this
      ensures Valid()
      ensures result == Verdict(name, settings)
      ensures sections == Pushed(old(sections), name, SectionErrs(name, settings), SectionWarns(name))
      ensures name in old(sections) ==> order == old(order)
      ensures errors == old(errors) && warnings == old(warnings)
    {
      if name !in ValidationRules() {
        Push(name, [], [UnknownSection + name]);
        return Warning;
      }
      var rules := ValidationRules()[name];
      result := ValidationResult.Valid;
      PushedNothing(sections, name);
      var i := 0;
      while i < |rules|
        invariant 0 <= i <= |rules|
        invariant Valid()
        invariant sections == Pushed(old(sections), name, SectionErrors(rules[..i], settings), [])
        invariant name in old(sections) ==> order == old(order)
        invariant result == if SectionErrors(rules[..i], settings) == [] then ValidationResult.Valid else Invalid
        invariant errors == old(errors) && warnings == old(warnings)
      {
        ghost var before := SectionErrors(rules[..i], settings);
        SectionErrorsSnoc(rules, i, settings);
        var failed := CheckRule(name, rules[i], settings);
        if failed {
          result := Invalid;
        }
        PushedTwice(old(sections), name, before, RuleErrors(rules[i], settings));
        i := i + 1;
      }
      assert rules[..i] == rules;
    }

    /** One pass of validateSection's rule loop: a missing required key or
        a present value that fails its type check pushes one error. */
    method CheckRule(name: string, rule: Rule, settings: map<string, string>) returns (failed: bool)
      requires Valid()
      modifies this
      ensures Valid()
      ensures failed == RuleFails(rule, settings)
      ensures sections == Pushed(old(sections), name, RuleErrors(rule, settings), [])
      ensures name in old(sections) ==> order == old(order)
      ensures errors == old(errors) && warnings == old(warnings)
    {
      failed := false;
      if rule.required && rule.settingName !in settings {
        Push(name, [RequiredMissing + rule.settingName], []);
        return true;
      }
      if rule.settingName in settings {
        var value := settings[rule.settingName];
        var valid := false;
        match rule.expectedType {
          case StringValue => valid := ValidateString(value, rule);
          case IntegerValue => valid := ValidateInteger(value, rule);
          case BooleanValue => valid := ValidateBoolean(value, rule);
        }
        if !valid {
          Push(name, [InvalidValue + rule.settingName + ": " + value], []);
          return true;
        }
      }
      PushedNothing(sections, name);
    }

    /** One pass of the getline loop body of validateConfiguration. */
    method ParseOneLine(current: string, line: string) returns (next: string)
      requires Valid() && (current != [] ==> current in sections)
      modifies this
      ensures ParseState(next, sections, order) == ParseLine(ParseState(current, old(sections), old(order)), line)
      ensures Valid() && (next != [] ==> next in sections)
      ensures errors == old(errors) && warnings == old(warnings)
    {
      next := current;
      if line == [] || line[0] == '#' || line[0] == ';' {
        return;
      }
      if line[0] == '[' && line[|line| - 1] == ']' {
        next := line[1..|line| - 1];
        assert next == HeaderName(line);
        if next !in sections {
          order := InsertSorted(order, next);
        }
        assert order == WithKey(old(order), old(sections), next);
        sections := sections[next := EmptySection(next)];
        return;
      }
      assert !IsSkipped(line) && !IsHeader(line);
      match Find(line, '=') {
        case None =>
        case Some(pos) =>
          var key := Trim(line[..pos]);
          var value := Trim(line[pos + 1..]);
          if current != [] {
            var sec := sections[current];
            sections := sections[current := sec.(settings := sec.settings[key := value])];
          }
      }
    }

    /** The getline loop of validateConfiguration. */
    method ParseText(lines: seq<string>)
      requires Valid()
      modifies this
      ensures Valid()
      ensures var r := ParseLines(ParseState("", old(sections), old(order)), lines);
        sections == r.sections && order == r.order
      ensures errors == old(errors) && warnings == old(warnings)
    {
      var current := "";
      ghost var start := ParseState(current, sections, order);
      var i := 0;
      while i < |lines|
        invariant 0 <= i <= |lines|
        invariant Valid() && (current != [] ==> current in sections)
        invariant ParseLines(start, lines[..i]) == ParseState(current, sections, order)
        invariant errors == old(errors) && warnings == old(warnings)
      {
        assert lines[..i + 1][..i] == lines[..i];
        current := ParseOneLine(current, lines[i]);
        i := i + 1;
      }
      assert lines[..i] == lines;
    }

    /** One pass of the judging loop body: validateSection on the section's
        own settings, then its verdict stored. */
    method JudgeOne(name: string) returns (result: ValidationResult)
      requires Valid() && name in sections
      modifies this
      ensures Valid() && order == old(order)
      ensures sections == old(sections)[name := Judge(name, old(sections)[name])]
      ensures result == Verdict(name, old(sections)[name].settings)
      ensures errors == old(errors) && warnings == old(warnings)
    {
      PushedThenJudged(sections, name);
      result := ValidateSection(name, sections[name].settings);
      sections := sections[name := sections[name].(validationResult := result)];
    }

    /** The judging loop of validateConfiguration: every section judged in
        map order and the verdicts folded, most severe first. */
    method JudgeSections() returns (overall: ValidationResult)
      requires Valid()
      modifies this
      ensures Valid() && order == old(order)
      ensures sections == JudgeAll(old(sections))
      ensures overall == Overall(order, sections)
      ensures errors == old(errors) && warnings == old(warnings)
    {
      ghost var judged := JudgeAll(sections);
      SortedDistinct(order);
      overall := ValidationResult.Valid;
      var j := 0;
      while j < |order|
        invariant 0 <= j <= |order|
        invariant Valid() && order == old(order)
        invariant sections == JudgeKeys(old(sections), order[..j])
        invariant overall == Overall(order[..j], judged)
        invariant errors == old(errors) && warnings == old(warnings)
      {
        var name := order[j];
        assert name !in order[..j];
        JudgeKeysAt(old(sections), order[..j], name);
        JudgeKeysSnoc(old(sections), order, j);
        OverallSnoc(order, j, judged);
        var result := JudgeOne(name);
        assert result == judged[name].validationResult;
        overall := Fold(overall, result);
        j := j + 1;
      }
      assert order[..j] == order;
      JudgeKeysAll(old(sections), order);
    }

    /** The if-chain of the judging loop that folds one verdict into the
        running result. */
    static method Fold(overall: ValidationResult, result: ValidationResult) returns (r: ValidationResult)
      ensures r == Combine(overall, result)
    {
      r := overall;
      if result == Critical {
        r := Critical;
      } else if result == Invalid && overall != Critical {
        r := Invalid;
      } else if result == Warning && overall == ValidationResult.Valid {
        r := Warning;
      }
    }

    /** validateConfiguration: clear, parse the text line by line into the
        sections, then judge every section in map order and fold the
        verdicts; the result is never CRITICAL. */
    method ValidateConfiguration(configData: string) returns (overall: ValidationResult)
      requires Valid()
      modifies this
      ensures Valid()
      ensures order == Parsed(configData, old(sections), old(order)).order
      ensures sections == JudgeAll(Parsed(configData, old(sections), old(order)).sections)
      ensures overall == Overall(order, sections)
      ensures overall != Critical
      ensures errors == old(errors) && warnings == old(warnings)
    {
      ClearValidationResults();
      ParseText(Lines(configData));
      overall := JudgeSections();
      JudgeAllVerdicts(Parsed(configData, old(sections), old(order)).sections);
      OverallNeverCritical(order, sections);
    }

    /** importConfiguration: validate and report success unless CRITICAL,
        which validateConfiguration never returns. */
    method ImportConfiguration(configData: string) returns (ok: bool)
      requires Valid()
      modifies this
      ensures Valid()
      ensures ok
      ensures order == Parsed(configData, old(sections), old(order)).order
      ensures sections == JudgeAll(Parsed(configData, old(sections), old(order)).sections)
    {
      var result := ValidateConfiguration(configData);
      ok := result != Critical;
    }

    /** exportConfiguration returns the default text whatever the state. */
    method ExportConfiguration() returns (text: string)
      ensures text == GenerateDefaultConfig()
      ensures Lines(text) == DefaultConfigLines()
    {
      text := GenerateDefaultConfig();
      DefaultLines();
    }

    /** getSetting: the stored value, or "" when the section or key is absent. */
    function GetSetting(sectionName: string, settingName: string): (value: string)
      reads this
      ensures sectionName in sections && settingName in sections[sectionName].settings ==>
                value == sections[sectionName].settings[settingName]
      ensures !(sectionName in sections && settingName in sections[sectionName].settings) ==> value == ""
    {
      if sectionName in sections && settingName in sections[sectionName].settings
      then sections[sectionName].settings[settingName]
      else ""
    }

    /** hasSection: whether the section was read. A section that is not
        there answers "" for every setting, and in a well-formed validator
        the sections read are exactly those in the key order. */
    function HasSection(sectionName: string): (has: bool)
      reads this
      ensures !has ==> forall key :: GetSetting(sectionName, key) == ""
      ensures Valid() ==> (has <==> sectionName in order)
    {
      sectionName in sections
    }

    /** The loop shared by getErrors and getWarnings. */
    method Collect(sectionName: string, kind: MessageKind) returns (msgs: seq<string>)
      requires Valid()
      ensures sectionName == [] ==> msgs == AllMessages(order, sections, kind)
      ensures sectionName == [] ==> forall m :: m in msgs <==>
                exists k :: k in sections && m in MessagesOf(sections[k], kind)
      ensures sectionName != [] ==>
                msgs == if sectionName in sections then MessagesOf(sections[sectionName], kind) else []
    {
      if sectionName != [] {
        if sectionName in sections {
          return MessagesOf(sections[sectionName], kind);
        }
        return [];
      }
      msgs := [];
      var i := 0;
      while i < |order|
        invariant 0 <= i <= |order|
        invariant msgs == AllMessages(order[..i], sections, kind)
      {
        assert order[..i + 1][..i] == order[..i];
        msgs := msgs + MessagesOf(sections[order[i]], kind);
        i := i + 1;
      }
      assert order[..i] == order;
      forall m ensures m in msgs <==> exists k :: k in sections && m in MessagesOf(sections[k], kind) {
        AllMessagesMembership(order, sections, kind, m);
        if exists k :: k in sections && m in MessagesOf(sections[k], kind) {
          var k :| k in sections && m in MessagesOf(sections[k], kind);
          var n :| 0 <= n < |order| && order[n] == k;
        }
      }
    }

    /** getErrors: all sections' errors in map order for an empty name,
        else that section's errors (none for an unknown section). */
    method GetErrors(sectionName: string) returns (msgs: seq<string>)
      requires Valid()
      ensures sectionName == [] ==> msgs == AllMessages(order, sections, Errors)
      ensures sectionName == [] ==> forall m :: m in msgs <==> exists k :: k in sections && m in sections[k].errors
      ensures sectionName != [] ==> msgs == if sectionName in sections then sections[sectionName].errors else []
    {
      msgs := Collect(sectionName, Errors);
    }

    method GetWarnings(sectionName: string) returns (msgs: seq<string>)
      requires Valid()
      ensures sectionName == [] ==> msgs == AllMessages(order, sections, Warnings)
      ensures sectionName == [] ==> forall m :: m in msgs <==> exists k :: k in sections && m in sections[k].warnings
      ensures sectionName != [] ==> msgs == if sectionName in sections then sections[sectionName].warnings else []
    {
      msgs := Collect(sectionName, Warnings);
    }

    /** The loop shared by hasErrors and hasWarnings. */
    method AnyMessages(kind: MessageKind) returns (r: bool)
      requires Valid()
      ensures r <==> exists k :: k in sections && MessagesOf(sections[k], kind) != []
    {
      var i := 0;
      while i < |order|
        invariant 0 <= i <= |order|
        invariant forall j :: 0 <= j < i ==> MessagesOf(sections[order[j]], kind) == []
      {
        if MessagesOf(sections[order[i]], kind) != [] {
          return true;
        }
        i := i + 1;
      }
      forall k | k in sections ensures MessagesOf(sections[k], kind) == [] {
        var n :| 0 <= n < |order| && order[n] == k;
      }
      return false;
    }

    /** hasErrors: some section holds an error. */
    method HasErrors() returns (r: bool)
      requires Valid()
      ensures r <==> exists k :: k in sections && sections[k].errors != []
    {
      r := AnyMessages(Errors);
    }

    method HasWarnings() returns (r: bool)
      requires Valid()
      ensures r <==> exists k :: k in sections && sections[k].warnings != []
    {
      r := AnyMessages(Warnings);
    }

    /** IsValidIPAddress: stop at the first character that is neither a
        digit nor a dot; otherwise accept iff there were three dots. */
    method IsValidIPAddress(ip: string) returns (ok: bool)
      ensures ok <==> DottedDigits(ip)
    {
      var dots := 0;
      var i := 0;
      while i < |ip|
        invariant 0 <= i <= |ip|
        invariant dots == CountDots(ip[..i])
        invariant forall j :: 0 <= j < i ==> IsDigit(ip[j]) || ip[j] == '.'
      {
        assert ip[..i + 1][..i] == ip[..i];
        if ip[i] == '.' {
          dots := dots + 1;
        } else if ip[i] < '0' || ip[i] > '9' {
          return false;
        }
        i := i + 1;
      }
      assert ip[..i] == ip;
      return dots == 3;
    }

    method ValidateNetworkConfiguration(config: NetworkConfig) returns (ok: bool)
      modifies this`errors, this`warnings
      ensures Findings(errors, warnings) == NetworkFindings(config)
      ensures ok <==> errors == []
    {
      errors := [];
      warnings := [];
      if config.targetIP == [] {
        errors := errors + [IpRequired];
      } else {
        var wellFormed := IsValidIPAddress(config.targetIP);
        if !wellFormed {
          errors := errors + [IpMalformed];
        }
      }
      assert errors == if config.targetIP == [] then [IpRequired]
                       else If(!DottedDigits(config.targetIP), IpMalformed);
      if config.targetPort < 1 || config.targetPort > 65535 {
        errors := errors + [PortRange];
      }
      if config.timeoutMs < 1000 || config.timeoutMs > 60000 {
        warnings := warnings + [TimeoutRange];
      }
      if config.heartbeatIntervalMs < 1000 || config.heartbeatIntervalMs > 30000 {
        warnings := warnings + [HeartbeatRange];
      }
      ok := errors == [];
    }

    method ValidateStealthConfiguration(config: StealthConfig) returns (ok: bool)
      modifies this`errors, this`warnings
      ensures Findings(errors, warnings) == StealthFindings(config)
      ensures ok
    {
      errors := [];
      warnings := [];
      if !config.enablePEBUnlinking && !config.enableThreadHiding && !config.enableProcessHiding
         && !config.enableMemoryEncryption {
        warnings := warnings + [NoStealth];
      }
      ok := errors == [];
    }

    method ValidateScreenSharingConfiguration(config: ScreenSharingConfig) returns (ok: bool)
      modifies this`errors, this`warnings
      ensures Findings(errors, warnings) == ScreenSharingFindings(config)
      ensures ok <==> errors == []
    {
      errors := [];
      warnings := [];
      if config.quality < 1 || config.quality > 100 {
        errors := errors + [QualityRange];
      }
      if config.frameRate < 1 || config.frameRate > 60 {
        errors := errors + [FrameRateRange];
      }
      if config.compression < 1 || config.compression > 100 {
        errors := errors + [CompressionRange];
      }
      ok := errors == [];
    }

    method ValidateAuthenticationConfiguration(config: AuthConfig) returns (ok: bool)
      modifies this`errors, this`warnings
      ensures Findings(errors, warnings) == AuthFindings(config)
      ensures ok <==> errors == []
    {
      errors := [];
      warnings := [];
      if config.username == [] {
        errors := errors + [UsernameRequired];
      }
      if config.password == [] {
        errors := errors + [PasswordRequired];
      } else if |config.password| < 6 {
        warnings := warnings + [PasswordShort];
      }
      if config.sessionTimeoutMinutes < 1 || config.sessionTimeoutMinutes > 1440 {
        warnings := warnings + [SessionTimeoutRange];
      }
      if config.maxLoginAttempts < 1 || config.maxLoginAttempts > 10 {
        warnings := warnings + [LoginAttemptsRange];
      }
      ok := errors == [];
    }

    method ValidateProcessInjectionConfiguration(config: ProcessInjectionConfig) returns (ok: bool)
      modifies this`errors, this`warnings
      ensures Findings(errors, warnings) == ProcessInjectionFindings(config)
      ensures ok
    {
      errors := [];
      warnings := [];
      if config.targetProcesses == [] {
        warnings := warnings + [NoTargets];
      }
      if config.injectionTimeoutMs < 1000 || config.injectionTimeoutMs > 30000 {
        warnings := warnings + [InjectionTimeoutRange];
      }
      ok := errors == [];
    }

    method ValidateMemoryProtectionConfiguration(config: MemoryProtectionConfig) returns (ok: bool)
      modifies this`errors, this`warnings
      ensures Findings(errors, warnings) == MemoryProtectionFindings(config)
      ensures ok <==> errors == []
    {
      errors := [];
      warnings := [];
      if config.encryptionLevel < 0 || config.encryptionLevel > 100 {
        errors := errors + [EncryptionLevelRange];
      }
      if config.obfuscationLevel < 0 || config.obfuscationLevel > 100 {
        errors := errors + [ObfuscationLevelRange];
      }
      ok := errors == [];
    }
  }

  /** The configuration manager's read side, delegating to its validator. */
  class ConfigManager {
    const validator: ConfigValidator

    constructor()
      ensures fresh(validator) && validator.Valid() && validator.sections == map[]
    {
      validator := new ConfigValidator();
    }

    /** getSetting with a fallback: a stored non-empty value wins,
        anything else gives the caller's default. */
    method GetSetting(section: string, key: string, defaultValue: string) returns (value: string)
      ensures var secs := validator.sections;
        if section in secs && key in secs[section].settings && secs[section].settings[key] != []
        then value == secs[section].settings[key]
        else value == defaultValue
    {
      value := validator.GetSetting(section, key);
      if value == [] {
        value := defaultValue;
      }
    }

    /** getLastError: the last of all sections' errors, or "" when there is none. */
    method GetLastError() returns (last: string)
      requires validator.Valid()
      ensures var all := AllMessages(validator.order, validator.sections, Errors);
        && (all == [] ==> last == "")
        && (all != [] ==> last == all[|all| - 1])
      ensures last != [] ==> exists k :: k in validator.sections && last in validator.sections[k].errors
    {
      var all := validator.GetErrors("");
      last := if all == [] then "" else all[|all| - 1];
      if all != [] {
        assert last in all;
      }
    }
  }

  /** Judging sections that carry no message and satisfy their rules
      leaves every one VALID with no message. */
  lemma JudgedClean(secs: map<string, ConfigSection>)
    requires forall k :: k in secs ==>
      && secs[k].errors == [] && secs[k].warnings == []
      && Verdict(k, secs[k].settings) == ValidationResult.Valid
      && SectionErrs(k, secs[k].settings) == [] && SectionWarns(k) == []
    ensures forall k :: k in JudgeAll(secs) ==>
      && JudgeAll(secs)[k].validationResult == ValidationResult.Valid
      && JudgeAll(secs)[k].errors == [] && JudgeAll(secs)[k].warnings == []
  {
    forall k | k in JudgeAll(secs)
      ensures JudgeAll(secs)[k].validationResult == ValidationResult.Valid
      ensures JudgeAll(secs)[k].errors == [] && JudgeAll(secs)[k].warnings == []
    {
      assert JudgeAll(secs)[k] == Judge(k, secs[k]);
    }
  }

  /** A text that splits into the default lines parses, on a fresh
      validator, into the default sections. */
  lemma DefaultTextParsed(text: string)
    requires Lines(text) == DefaultConfigLines()
    ensures Parsed(text, map[], []).sections == DefaultSections()
  {
    assert Cleared(map[]) == map[];
    DefaultConfigParses();
  }

  /** Judging the default sections leaves every one VALID with no message. */
  lemma DefaultSectionsJudged()
    ensures forall k :: k in JudgeAll(DefaultSections()) ==>
      && JudgeAll(DefaultSections())[k].validationResult == ValidationResult.Valid
      && JudgeAll(DefaultSections())[k].errors == [] && JudgeAll(DefaultSections())[k].warnings == []
  {
    DefaultSectionsValid();
    JudgedClean(DefaultSections());
  }

  /** Judging keeps the default port stored under Network. */
  lemma DefaultPortJudged()
    ensures "Network" in JudgeAll(DefaultSections())
    ensures "port" in JudgeAll(DefaultSections())["Network"].settings
    ensures JudgeAll(DefaultSections())["Network"].settings["port"] == "8080"
  {
    assert JudgeAll(DefaultSections())["Network"].settings == PairsMap(NetworkPairs());
    assert "port" in PairsMap(NetworkPairs()) && PairsMap(NetworkPairs())["port"] == "8080" by {
      NetworkSettings();
    }
  }

  /** With every section VALID the overall verdict is VALID. */
  lemma AllValidOverall(order: seq<string>, secs: map<string, ConfigSection>)
    requires forall k :: k in order ==> k in secs
    requires forall k :: k in secs ==> secs[k].validationResult == ValidationResult.Valid
    ensures Overall(order, secs) == ValidationResult.Valid
  {
    OverallIsWorst(order, secs);
  }

  /** What validateConfiguration makes of a text that splits into the
      default lines, on a fresh validator: every section VALID with no
      message, so the overall verdict is VALID, and the default port is
      stored under Network. */
  lemma DefaultTextJudged(text: string, secs: map<string, ConfigSection>, order: seq<string>)
    requires Lines(text) == DefaultConfigLines()
    requires secs == JudgeAll(Parsed(text, map[], []).sections) && order == Parsed(text, map[], []).order
    ensures forall k :: k in secs ==> secs[k].errors == [] && secs[k].warnings == []
    ensures Overall(order, secs) == ValidationResult.Valid
    ensures "Network" in secs && "port" in secs["Network"].settings && secs["Network"].settings["port"] == "8080"
  {
    DefaultTextParsed(text);
    DefaultSectionsJudged();
    DefaultPortJudged();
    AllValidOverall(order, secs);
  }

  /** Validating the default text on a fresh validator gives VALID, no
      error, no warning, and the default port can be read back. */
  method DefaultConfigurationValidates() returns (overall: ValidationResult, hasErrors: bool,
                                                  hasWarnings: bool, port: string)
    ensures overall == ValidationResult.Valid && !hasErrors && !hasWarnings && port == "8080"
  {
    var v := new ConfigValidator();
    var text := v.ExportConfiguration();
    overall := v.ValidateConfiguration(text);
    DefaultTextJudged(text, v.sections, v.order);
    hasErrors := v.HasErrors();
    hasWarnings := v.HasWarnings();
    port := v.GetSetting("Network", "port");
  }
}
