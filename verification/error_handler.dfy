/** The error reporter: severity and category names, the one-line log
    format of an error record, the optional log and recovery callbacks and
    the lazily created shared instance. The wall-clock timestamp a report
    carries is passed in; console output is kept as a sequence of lines. */
module Errors {
  import opened Text

  datatype ErrorSeverity = Info | Warning | Error | Critical

  datatype ErrorCategory = Authentication | Network | Stealth | ScreenCapture | Memory | System | Unknown

  datatype ErrorInfo = ErrorInfo(severity: ErrorSeverity, category: ErrorCategory, message: string,
                                 details: string, timestamp: string, functionName: string, lineNumber: int)

  const InfoName: string := "INFO"
  const WarningName: string := "WARNING"
  const ErrorName: string := "ERROR"
  const CriticalName: string := "CRITICAL"

  const AuthName: string := "AUTH"
  const NetName: string := "NET"
  const StealthName: string := "STEALTH"
  const ScreenName: string := "SCREEN"
  const MemoryName: string := "MEMORY"
  const SystemName: string := "SYSTEM"
  const UnknownName: string := "UNKNOWN"

  function GetSeverityString(severity: ErrorSeverity): (name: string)
    ensures name != [] && ']' !in name
  {
    match severity
    case Info => InfoName
    case Warning => WarningName
    case Error => ErrorName
    case Critical => CriticalName
  }

  function GetCategoryString(category: ErrorCategory): (name: string)
    ensures name != [] && ']' !in name
  {
    match category
    case Authentication => AuthName
    case Network => NetName
    case Stealth => StealthName
    case ScreenCapture => ScreenName
    case Memory => MemoryName
    case System => SystemName
    case Unknown => UnknownName
  }

  /** The severity a name in a log line stands for, if any. */
  function SeverityOfName(name: string): (r: Option<ErrorSeverity>)
  {
    if name == InfoName then Some(Info)
    else if name == WarningName then Some(Warning)
    else if name == ErrorName then Some(Error)
    else if name == CriticalName then Some(Critical)
    else None
  }

  /** The category a name in a log line stands for, if any. */
  function CategoryOfName(name: string): (r: Option<ErrorCategory>)
  {
    if name == AuthName then Some(Authentication)
    else if name == NetName then Some(Network)
    else if name == StealthName then Some(Stealth)
    else if name == ScreenName then Some(ScreenCapture)
    else if name == MemoryName then Some(Memory)
    else if name == SystemName then Some(System)
    else if name == UnknownName then Some(Unknown)
    else None
  }

  /** Every severity has its own name, and that name reads back to it. */
  lemma SeverityNames(s: ErrorSeverity, name: string)
    ensures SeverityOfName(GetSeverityString(s)) == Some(s)
    ensures SeverityOfName(name) == Some(s) ==> GetSeverityString(s) == name
  {
  }

  /** Every category has its own name, and that name reads back to it. */
  lemma CategoryNames(c: ErrorCategory, name: string)
    ensures CategoryOfName(GetCategoryString(c)) == Some(c)
    ensures CategoryOfName(name) == Some(c) ==> GetCategoryString(c) == name
  {
  }

  /** No two severities, and no two categories, share a name. */
  lemma NamesDistinct(s1: ErrorSeverity, s2: ErrorSeverity, c1: ErrorCategory, c2: ErrorCategory)
    ensures GetSeverityString(s1) == GetSeverityString(s2) <==> s1 == s2
    ensures GetCategoryString(c1) == GetCategoryString(c2) <==> c1 == c2
  {
    SeverityNames(s1, []);
    SeverityNames(s2, []);
    CategoryNames(c1, []);
    CategoryNames(c2, []);
  }

  /** A record is critical exactly when its log line is tagged CRITICAL. */
  function IsCriticalError(e: ErrorInfo): (critical: bool)
    ensures critical <==> GetSeverityString(e.severity) == CriticalName
  {
    NamesDistinct(e.severity, Critical, e.category, e.category);
    e.severity == Critical
  }

  /** "[SEVERITY] [CATEGORY] ": the two tags a log line opens with. */
  function Tags(e: ErrorInfo): (t: string)
    ensures |t| == |GetSeverityString(e.severity)| + |GetCategoryString(e.category)| + 6
  {
    "[" + GetSeverityString(e.severity) + "] [" + GetCategoryString(e.category) + "] "
  }

  /** "(function:line) " when a function is named, the line only when
      positive; nothing otherwise. */
  function Location(e: ErrorInfo): (l: string)
    ensures e.functionName == [] <==> l == []
    ensures e.functionName != [] ==> |l| >= 3 && l[0] == '(' && l[|l| - 2..] == ") "
    ensures e.functionName != [] ==> |e.functionName| + 3 <= |l| && l[1..|e.functionName| + 1] == e.functionName
    ensures e.functionName != [] && e.lineNumber <= 0 ==> |l| == |e.functionName| + 3
    ensures e.functionName != [] && 0 < e.lineNumber <= IntMax ==>
      l[|e.functionName| + 1] == ':' && StoI(l[|e.functionName| + 2..|l| - 2]) == Some(e.lineNumber)
  {
    if e.functionName == [] then []
    else if e.lineNumber > 0 then
      var digits := NatToString(e.lineNumber);
      var l := "(" + e.functionName + ":" + digits + ") ";
      assert l[|e.functionName| + 2..|l| - 2] == digits;
      assert l[1..|e.functionName| + 1] == e.functionName;
      if e.lineNumber <= IntMax then StoIOfIntToString(e.lineNumber); l else l
    else
      var l := "(" + e.functionName + ") ";
      assert l[1..|e.functionName| + 1] == e.functionName;
      l
  }

  /** A line number that is not positive is left out of the log line, so
      every such number formats like 0. */
  lemma NonPositiveLineIgnored(e: ErrorInfo)
    requires e.lineNumber <= 0
    ensures FormatError(e) == FormatError(e.(lineNumber := 0))
    ensures Location(e) == if e.functionName == [] then [] else "(" + e.functionName + ") "
  {
  }

  /** " - details" when there are details; nothing otherwise. */
  function DetailsSuffix(e: ErrorInfo): (d: string)
    ensures e.details == [] <==> d == []
    ensures e.details != [] ==> d == " - " + e.details
  {
    if e.details == [] then [] else " - " + e.details
  }

  /** formatError: tags, timestamp and a space, the optional location, the
      message and the optional details, in that order. */
  function FormatError(e: ErrorInfo): (line: string)
    ensures |line| == |Tags(e)| + |e.timestamp| + 1 + |Location(e)| + |e.message| + |DetailsSuffix(e)|
  {
    Tags(e) + e.timestamp + " " + Location(e) + e.message + DetailsSuffix(e)
  }

  /** The pieces of a log line sit at fixed places: it starts with the tags
      and timestamp, ends with the message and details, and in between is
      the location, empty exactly when no function is named. */
  lemma {:induction false} FormatErrorLayout(e: ErrorInfo)
    ensures var line := FormatError(e); var head := Tags(e) + e.timestamp + " ";
      var tail := e.message + DetailsSuffix(e);
      |head| + |tail| <= |line|
      && line[..|head|] == head
      && line[|line| - |tail|..] == tail
      && (e.functionName == [] <==> |line| == |head| + |tail|)
      && (e.details == [] ==> line[|line| - |e.message|..] == e.message)
  {
    var line := FormatError(e);
    var head := Tags(e) + e.timestamp + " ";
    var tail := e.message + DetailsSuffix(e);
    assert line == head + Location(e) + tail;
  }

  /** Reads one bracketed name off the front of `s`: the name up to the
      first ']', and what follows that ']'. */
  function ReadTag(s: string): (r: Option<(string, string)>)
  {
    if s == [] || s[0] != '[' then None
    else match Find(s[1..], ']')
      case None => None
      case Some(i) => Some((s[1..i + 1], s[i + 2..]))
  }

  /** Reads the two bracketed names a log line starts with back into a
      severity and a category. */
  function ReadTags(line: string): (r: Option<(ErrorSeverity, ErrorCategory)>)
  {
    match ReadTag(line)
    case None => None
    case Some((sevName, rest)) =>
      if rest == [] || rest[0] != ' ' then None
      else match ReadTag(rest[1..])
        case None => None
        case Some((catName, _)) =>
          match (SeverityOfName(sevName), CategoryOfName(catName))
          case (Some(s), Some(c)) => Some((s, c))
          case _ => None
  }

  /** A bracketed name without ']' inside is read back whole, and the read
      resumes right after it. */
  lemma ReadTagOf(name: string, rest: string)
    requires ']' !in name
    ensures ReadTag("[" + name + "]" + rest) == Some((name, rest))
  {
    var s := "[" + name + "]" + rest;
    assert s[1..] == name + ("]" + rest);
    FindAfterPrefix(name, "]" + rest, ']');
    assert s[1..|name| + 1] == name;
    assert s[|name| + 2..] == rest;
  }

  /** Two bracketed names separated by a space are read back as a severity
      and a category name. */
  lemma {:induction false} ReadTwoTags(sev: string, cat: string, after: string)
    requires ']' !in sev && ']' !in cat
    ensures ReadTags("[" + sev + "] [" + cat + "] " + after)
      == match (SeverityOfName(sev), CategoryOfName(cat))
         case (Some(s), Some(c)) => Some((s, c))
         case _ => None
  {
    var second := "[" + cat + "]" + (" " + after);
    var rest := " " + second;
    assert "[" + sev + "] [" + cat + "] " + after == "[" + sev + "]" + rest;
    ReadTagOf(sev, rest);
    assert rest[1..] == second;
    ReadTagOf(cat, " " + after);
  }

  /** A formatted line carries the record's severity and category where a
      reader finds them again, whatever the message says. */
  lemma {:induction false} FormatErrorTags(e: ErrorInfo)
    ensures ReadTags(FormatError(e)) == Some((e.severity, e.category))
  {
    var sev := GetSeverityString(e.severity);
    var cat := GetCategoryString(e.category);
    var after := e.timestamp + " " + Location(e) + e.message + DetailsSuffix(e);
    assert FormatError(e) == "[" + sev + "] [" + cat + "] " + after;
    ReadTwoTags(sev, cat, after);
    SeverityNames(e.severity, []);
    CategoryNames(e.category, []);
  }

  /** The error reporter. The log callback's own effect lies outside the
      model: what is kept is whether one is set and the records it has been
      handed. The recovery callback is a function of the record. */
  class ErrorHandler {
    var console: seq<string>
    var logCallback: bool
    var callbackLog: seq<ErrorInfo>
    var recoveryCallback: Option<ErrorInfo -> bool>

    constructor()
      ensures console == [] && !logCallback && callbackLog == [] && recoveryCallback == None
    {
      console := [];
      logCallback := false;
      callbackLog := [];
      recoveryCallback := None;
    }

    /** setLogCallback: `enabled` is false for an empty callback. */
    method SetLogCallback(enabled: bool)
      modifies this`logCallback
      ensures logCallback == enabled
    {
      logCallback := enabled;
    }

    method SetRecoveryCallback(callback: Option<ErrorInfo -> bool>)
      modifies this`recoveryCallback
      ensures recoveryCallback == callback
    {
      recoveryCallback := callback;
    }

    /** logError: the formatted line goes to the console, and the record to
        the log callback when one is set. */
    method LogError(e: ErrorInfo)
      modifies this`console, this`callbackLog
      ensures console == old(console) + [FormatError(e)]
      ensures callbackLog == old(callbackLog) + (if logCallback then [e] else [])
    {
      console := console + [FormatError(e)];
      if logCallback {
        callbackLog := callbackLog + [e];
      }
    }

    /** attemptRecovery: false without a recovery callback, else whatever
        it answers for the record. */
    method AttemptRecovery(e: ErrorInfo) returns (recovered: bool)
      ensures recoveryCallback.None? ==> !recovered
      ensures recoveryCallback.Some? ==> recovered == recoveryCallback.value(e)
    {
      match recoveryCallback {
        case None => recovered := false;
        case Some(f) => recovered := f(e);
      }
    }

    /** reportError: builds the record from exactly the given fields and the
        current timestamp, logs it once and hands it to the recovery
        callback, whose answer is dropped. */
    method ReportError(severity: ErrorSeverity, category: ErrorCategory, message: string,
                       details: string, functionName: string, line: int, timestamp: string)
      modifies this`console, this`callbackLog
      ensures var e := ErrorInfo(severity, category, message, details, timestamp, functionName, line);
        console == old(console) + [FormatError(e)]
        && callbackLog == old(callbackLog) + (if logCallback then [e] else [])
    {
      var e := ErrorInfo(severity, category, message, details, timestamp, functionName, line);
      LogError(e);
      var recovered := AttemptRecovery(e);
    }
  }

  /** The static slot behind getInstance. */
  class InstanceSlot {
    var instance: Option<ErrorHandler>

    constructor()
      ensures instance == None
    {
      instance := None;
    }

    /** getInstance: creates the handler on first use and afterwards always
        returns that same one. */
    method GetInstance() returns (h: ErrorHandler)
      modifies this
      ensures instance == Some(h)
      ensures old(instance).Some? ==> h == old(instance).value
      ensures old(instance).None? ==> fresh(h) && h.console == [] && !h.logCallback
    {
      if instance.None? {
        var created := new ErrorHandler();
        instance := Some(created);
      }
      h := instance.value;
    }
  }

  /** Two calls of getInstance hand out the same handler. */
  method SameInstance(slot: InstanceSlot) returns (first: ErrorHandler, second: ErrorHandler)
    modifies slot
    ensures first == second
  {
    first := slot.GetInstance();
    second := slot.GetInstance();
  }
}
