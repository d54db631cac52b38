# Masoudy Dictionary core, modelled in Dafny

This project models four self-contained parts of the Masoudy Dictionary C++
code base and proves properties of them.

- **The INI configuration validator** (`ConfigValidator`, `ConfigManager`).
  - The validator parses configuration text line by line into a
    `std::map` of sections. Comment and blank lines are skipped.
    `[Section]` headers reset their section. `key=value` pairs are split at
    the first `=` and trimmed.
  - It judges every section against a fixed rule table. There are three
    rule kinds: boolean (case-insensitive), integer (`std::stoi` with
    inclusive bounds), and string (an allowed list, or else non-empty).
  - It folds the section verdicts into an overall result.
  - It answers queries over the collected errors and warnings.
  - It runs the typed record checks and produces the default
    configuration text and records.
  - Files: `text.dfy` (string helpers: `std::stoi`, trimming, `getline`),
    `config_rules.dfy` (the pure layer), `config_records.dfy` (typed
    records and their checks), `config_defaults.dfy` (the default text
    and why it is valid), `config_validator.dfy` (the validator object,
    its loops proved against the pure layer).
- **The framing and bookkeeping of the communication engine**
  (`communication_engine.dfy`).
  - The 20-byte little-endian header (type, sequence number and payload
    size as u32, timestamp as u64) and its parse.
  - The XOR-0x42 payload cipher.
  - The toy compression pair: keep the even-indexed bytes, or double
    every byte.
  - `ValidateMessage`, the level clamps and the process-wide sequence
    counter.
  - The status guards of Initialize, Connect, Disconnect, Shutdown, Send
    and Receive. What the socket calls return is passed in. The bytes
    handed to `send` are kept on a `wire` log.
- **The login lockout state machine** (`AuthSystem`, `auth_system.dfy`).
  - Two fixed accounts and a failed-attempt counter with a 15-minute
    lockout after 3 failures.
  - One optional session that is valid for 24 whole hours.
  - The role queries and the XOR string cipher.
  - The clock is an explicit `now` in milliseconds. `duration_cast`
    truncates toward zero and is modelled that way.
- **The error reporter** (`ErrorHandler`, `error_handler.dfy`).
  - Severity and category names and the one-line log format.
  - The optional log and recovery callbacks.
  - The lazily created shared instance.

## Model

| member | source | states |
|---|---|---|
| ConfigRules.RuleTable | MasoudyDictionary_Development/src/config_validator.cpp:18-51 | The rule table covers exactly Authentication, Network, Stealth and ScreenSharing, each with at least three rules, and every rule is required. |
| ConfigRules.ValidateInteger | MasoudyDictionary_Development/src/config_validator.cpp:157-175 | A value that passes is one `std::stoi` reads; with no bounds, passing is exactly being readable. |
| ConfigRules.ValidateBoolean | MasoudyDictionary_Development/src/config_validator.cpp:177-181 | A value that passes has 4 or 5 characters, and "true" and "false" always pass. |
| ConfigRules.Combine | MasoudyDictionary_Development/src/config_validator.cpp:98-104 | One step of the overall fold yields whichever of the two verdicts ranks higher (CRITICAL > INVALID > WARNING > VALID). |
| ConfigRules.ValidateString | MasoudyDictionary_Development/src/config_validator.cpp:150-155 | With an allowed list a value passes iff it is in the list; without one, iff it is non-empty. |
| ConfigRules.IntegerRuleAccepts | MasoudyDictionary_Development/src/config_validator.cpp:157-175 | An integer rule with readable bounds accepts a value iff `std::stoi` reads it and the number lies within the bounds inclusive. |
| ConfigRules.IntegerTrailingJunk | MasoudyDictionary_Development/src/config_validator.cpp:157-175 | Characters after an integer value's digits do not change whether it is accepted. |
| ConfigRules.BooleanRuleAccepts | MasoudyDictionary_Development/src/config_validator.cpp:177-181 | A boolean rule accepts exactly the values that lower-case to "true" or "false"; "TRUE" and "False" pass, "1" does not. |
| ConfigRules.RuleErrors | MasoudyDictionary_Development/src/config_validator.cpp:120-145 | One rule contributes at most one error, and one exactly when the rule fails (a required key is missing or a present value is rejected). |
| ConfigRules.Verdict | MasoudyDictionary_Development/src/config_validator.cpp:110-148 | A section verdict is never CRITICAL, and it is WARNING exactly for a section that has no rules. |
| ConfigRules.SectionErrorsCount | MasoudyDictionary_Development/src/config_validator.cpp:117-147 | A known section gets one error per failing rule, and none iff no rule fails. |
| ConfigRules.UnknownSectionVerdict | MasoudyDictionary_Development/src/config_validator.cpp:112-115 | A section with no rules is judged WARNING, with exactly one "Unknown section: " warning and no error. |
| ConfigRules.KnownSectionVerdict | MasoudyDictionary_Development/src/config_validator.cpp:117-147 | A known section is INVALID iff some rule fails and VALID iff none does, gets one error per failing rule, and gets no warning. |
| ConfigRules.ParseLine | MasoudyDictionary_Development/src/config_validator.cpp:60-90 | One line keeps the parse state well formed: a named current section exists, and the key order lists exactly the map's keys, strictly sorted as `std::map` iterates them. |
| ConfigRules.SkippedLineChangesNothing | MasoudyDictionary_Development/src/config_validator.cpp:60-64 | An empty line, or one starting with '#' or ';', leaves the parse state unchanged. |
| ConfigRules.HeaderResetsSection | MasoudyDictionary_Development/src/config_validator.cpp:66-71 | A header line, new or repeated, makes its section current and empty, and leaves every other section as it was. |
| ConfigRules.KeyValueStored | MasoudyDictionary_Development/src/config_validator.cpp:74-89 | A line that is neither skipped nor a header, split at its first '=', stores the trimmed value under the trimmed key in the current section only; before any header it changes nothing. |
| ConfigRules.EmptyKeyStored | MasoudyDictionary_Development/src/config_validator.cpp:74-89 | A line such as "=v" is stored too, under the empty key. |
| ConfigRules.PushedNothing | MasoudyDictionary_Development/src/config_validator.cpp:113-141 | Pushing no message onto an existing section changes no section. |
| ConfigRules.PushedTwice | MasoudyDictionary_Development/src/config_validator.cpp:124-141 | Two error pushes in a row equal one push of both, in order. |
| ConfigRules.PushedThenJudged | MasoudyDictionary_Development/src/config_validator.cpp:94-96 | validateSection's pushes followed by storing its verdict give the section as judged. |
| ConfigRules.Cleared | MasoudyDictionary_Development/src/config_validator.cpp:288-294 | Clearing keeps every section and its settings and resets its messages and verdict. |
| ConfigRules.OverallIsWorst | MasoudyDictionary_Development/src/config_validator.cpp:93-107 | The overall verdict ranks at least as high as every section's verdict and is one of them (VALID when there is none). |
| ConfigRules.OverallNeverCritical | MasoudyDictionary_Development/src/config_validator.cpp:93-148 | Since validateSection never returns CRITICAL, the overall verdict is never CRITICAL. |
| ConfigRecords.NetworkCheckPasses | MasoudyDictionary_Development/src/config_validator.cpp:456-483 | The network check has no error iff the IP is non-empty and well formed and the port is in 1..65535; timeout and heartbeat produce at most two warnings. |
| ConfigRecords.ScreenSharingCheckPasses | MasoudyDictionary_Development/src/config_validator.cpp:498-518 | The screen-sharing check has no error iff quality, frame rate and compression are all in range; it never warns. |
| ConfigRecords.AuthCheckPasses | MasoudyDictionary_Development/src/config_validator.cpp:520-547 | The authentication check has no error iff the user name and password are both non-empty. |
| ConfigRecords.MemoryProtectionCheckPasses | MasoudyDictionary_Development/src/config_validator.cpp:566-581 | The memory-protection check has no error iff both levels are in 0..100. |
| ConfigRecords.GenerateDefaultNetworkConfig | MasoudyDictionary_Development/src/config_validator.cpp:583-592 | The default record passes its own check with no error and no warning. |
| ConfigRecords.GenerateDefaultStealthConfig | MasoudyDictionary_Development/src/config_validator.cpp:594-605 | The default record passes its own check with no error and no warning. |
| ConfigRecords.GenerateDefaultScreenSharingConfig | MasoudyDictionary_Development/src/config_validator.cpp:607-616 | The default record passes its own check with no error and no warning. |
| ConfigRecords.GenerateDefaultAuthConfig | MasoudyDictionary_Development/src/config_validator.cpp:618-626 | The default record passes its own check with no error and no warning. |
| ConfigRecords.GenerateDefaultProcessInjectionConfig | MasoudyDictionary_Development/src/config_validator.cpp:628-636 | The default record passes its own check with no error and no warning. |
| ConfigRecords.GenerateDefaultMemoryProtectionConfig | MasoudyDictionary_Development/src/config_validator.cpp:638-648 | The default record passes its own check with no error and no warning. |
| DefaultConfig.DefaultLines | MasoudyDictionary_Development/src/config_validator.cpp:255-282 | Splitting the generated default text at its newlines gives back exactly the default lines. |
| DefaultConfig.DefaultConfigParses | MasoudyDictionary_Development/src/config_validator.cpp:255-282 | The default text parses, on an empty validator, into the four default sections with their settings. |
| DefaultConfig.DefaultSectionsValid | MasoudyDictionary_Development/src/config_validator.cpp:18-51 | Every default section satisfies every rule of its table: VALID, with no error and no warning. |
| ConfigValidation.AllMessagesMembership | MasoudyDictionary_Development/src/config_validator.cpp:211-235 | A message is in the concatenation of all sections' messages iff some section holds it. |
| ConfigValidation.JudgeAllVerdicts | MasoudyDictionary_Development/src/config_validator.cpp:94-96 | After judging, every section carries validateSection's verdict on its own settings. |
| ConfigValidation.ConfigValidator.constructor | MasoudyDictionary_Development/src/config_validator.cpp:10-12 | A new validator is well formed and holds no sections, keys, errors or warnings; the rule table it sets up is the fixed ValidationRules. |
| ConfigValidation.ConfigValidator.ClearValidationResults | MasoudyDictionary_Development/src/config_validator.cpp:288-294 | The loop leaves the sections as the clearing function describes, in the same key order. |
| ConfigValidation.ConfigValidator.ValidateSection | MasoudyDictionary_Development/src/config_validator.cpp:110-148 | Returns the section verdict and pushes exactly that section's errors and warnings. |
| ConfigValidation.ConfigValidator.CheckRule | MasoudyDictionary_Development/src/config_validator.cpp:120-145 | One pass of the rule loop reports whether the rule fails and pushes its one error. |
| ConfigValidation.ConfigValidator.ParseOneLine | MasoudyDictionary_Development/src/config_validator.cpp:60-90 | One pass of the getline loop does what the line function prescribes to the sections and the current section. |
| ConfigValidation.ConfigValidator.ParseText | MasoudyDictionary_Development/src/config_validator.cpp:56-90 | The getline loop leaves the sections as the parse of all lines prescribes. |
| ConfigValidation.ConfigValidator.JudgeOne | MasoudyDictionary_Development/src/config_validator.cpp:95-96 | Judging one section rewrites that entry only and returns its verdict. |
| ConfigValidation.ConfigValidator.JudgeSections | MasoudyDictionary_Development/src/config_validator.cpp:93-107 | Every section is judged in map order, and the result is the fold of the verdicts. |
| ConfigValidation.ConfigValidator.Fold | MasoudyDictionary_Development/src/config_validator.cpp:98-104 | The if-chain computes one step of the severity fold. |
| ConfigValidation.ConfigValidator.ValidateConfiguration | MasoudyDictionary_Development/src/config_validator.cpp:53-108 | Clear, parse, judge: the sections are those of the parsed text, all judged, and the result is their fold, never CRITICAL. |
| ConfigValidation.ConfigValidator.ImportConfiguration | MasoudyDictionary_Development/src/config_validator.cpp:450-453 | Validates the text and reports success, which always holds because validation never yields CRITICAL. |
| ConfigValidation.ConfigValidator.ExportConfiguration | MasoudyDictionary_Development/src/config_validator.cpp:446-448 | Returns the default text, whose lines are the default configuration lines. |
| ConfigValidation.ConfigValidator.HasSection | MasoudyDictionary_Development/src/config_validator.cpp:207-209 | A section that is absent answers "" for every setting; in a well-formed validator the sections present are exactly those in the key order. |
| ConfigValidation.ConfigValidator.GetSetting | MasoudyDictionary_Development/src/config_validator.cpp:196-205 | The stored value when the section and key exist, "" otherwise. |
| ConfigValidation.ConfigValidator.GetErrors | MasoudyDictionary_Development/src/config_validator.cpp:211-222 | An empty name gives all sections' errors in map order, each error being some section's; a name gives that section's errors, or none when it is absent. |
| ConfigValidation.ConfigValidator.GetWarnings | MasoudyDictionary_Development/src/config_validator.cpp:224-235 | The same for warnings. |
| ConfigValidation.ConfigValidator.HasErrors | MasoudyDictionary_Development/src/config_validator.cpp:237-244 | True iff some section holds an error. |
| ConfigValidation.ConfigValidator.HasWarnings | MasoudyDictionary_Development/src/config_validator.cpp:246-253 | True iff some section holds a warning. |
| ConfigValidation.ConfigValidator.IsValidIPAddress | MasoudyDictionary_Development/src/config_validator.cpp:691-699 | True iff every character is a digit or '.' and there are exactly three dots. |
| ConfigValidation.ConfigValidator.ValidateNetworkConfiguration | MasoudyDictionary_Development/src/config_validator.cpp:456-483 | Replaces the error and warning lists with the network findings and passes iff there is no error. |
| ConfigValidation.ConfigValidator.ValidateStealthConfiguration | MasoudyDictionary_Development/src/config_validator.cpp:485-496 | Replaces the lists with the stealth findings (a warning at most) and always passes. |
| ConfigValidation.ConfigValidator.ValidateScreenSharingConfiguration | MasoudyDictionary_Development/src/config_validator.cpp:498-518 | Replaces the lists with the screen-sharing findings and passes iff there is no error. |
| ConfigValidation.ConfigValidator.ValidateAuthenticationConfiguration | MasoudyDictionary_Development/src/config_validator.cpp:520-547 | Replaces the lists with the authentication findings and passes iff there is no error. |
| ConfigValidation.ConfigValidator.ValidateProcessInjectionConfiguration | MasoudyDictionary_Development/src/config_validator.cpp:549-564 | Replaces the lists with the injection findings (warnings only) and always passes. |
| ConfigValidation.ConfigValidator.ValidateMemoryProtectionConfiguration | MasoudyDictionary_Development/src/config_validator.cpp:566-581 | Replaces the lists with the memory-protection findings and passes iff there is no error. |
| ConfigValidation.ConfigManager.GetSetting | MasoudyDictionary_Development/src/config_validator.cpp:405-409 | A stored non-empty value, or else the caller's default. |
| ConfigValidation.ConfigManager.GetLastError | MasoudyDictionary_Development/src/config_validator.cpp:437-440 | The last of all sections' errors in map order, or "" when there is none. |
| ConfigValidation.DefaultTextJudged | MasoudyDictionary_Development/src/config_validator.cpp:255-282 | Validating the default text on an empty validator leaves no message in any section, an overall VALID, and port 8080 under Network. |
| ConfigValidation.DefaultConfigurationValidates | MasoudyDictionary_Development/src/config_validator.cpp:237-282 | On a fresh validator the default text validates to VALID, with hasErrors and hasWarnings false. |
| Communication.FromLittleEndianOfLittleEndian | MasoudyDictionary_Development/src/communication_engine.cpp:264-276 | Reading back the little-endian bytes of a number that fits gives the number. |
| Communication.LittleEndianOfFromLittleEndian | MasoudyDictionary_Development/src/communication_engine.cpp:173-182 | Writing back the number read from some bytes gives the same bytes. |
| Communication.SerializeFrame | MasoudyDictionary_Development/src/communication_engine.cpp:173-185 | A frame is 20 header bytes plus the payload. |
| Communication.FrameLayout | MasoudyDictionary_Development/src/communication_engine.cpp:173-185 | In a frame, type, sequence number, size and timestamp sit at offsets 0, 4, 8 and 12, and the payload follows at 20. |
| Communication.HeaderRoundTrip | MasoudyDictionary_Development/src/communication_engine.cpp:264-276 | Parsing a serialised header gives back all four fields. |
| Communication.ParseHeader | MasoudyDictionary_Development/src/communication_engine.cpp:264-276 | Reading the header loses nothing: every 20-byte buffer is the serialisation of the header read from it. |
| Communication.XoredInvolution | MasoudyDictionary_Development/src/communication_engine.cpp:508-519 | XOR with 0x42 twice restores the payload, and once changes every byte. |
| Communication.XorInPlace | MasoudyDictionary_Development/src/communication_engine.cpp:510-512 | The loop over the buffer XORs every byte with 0x42. |
| Communication.EncryptMessage | MasoudyDictionary_Development/src/communication_engine.cpp:508-514 | Only the payload changes; it becomes its XOR with 0x42. |
| Communication.DecryptMessage | MasoudyDictionary_Development/src/communication_engine.cpp:516-519 | Decryption is the same XOR, so it undoes encryption. |
| Communication.Compressed | MasoudyDictionary_Development/src/communication_engine.cpp:521-533 | Payloads of at most 100 bytes stay unchanged; longer ones keep their even-indexed bytes, with the size set to ⌈n/2⌉. |
| Communication.Decompressed | MasoudyDictionary_Development/src/communication_engine.cpp:535-547 | Doubles every byte and sets the size to twice the length, only when the size field is below that. |
| Communication.CompressMessage | MasoudyDictionary_Development/src/communication_engine.cpp:521-533 | The loop computes the compressed message. |
| Communication.DecompressMessage | MasoudyDictionary_Development/src/communication_engine.cpp:535-547 | The loop computes the decompressed message. |
| Communication.DoubledEvenIndexed | MasoudyDictionary_Development/src/communication_engine.cpp:521-547 | Doubling the even-indexed bytes restores a payload iff its bytes come in equal pairs. |
| Communication.CompressRoundTrip | MasoudyDictionary_Development/src/communication_engine.cpp:521-547 | The two are not inverses: a payload over 100 bytes survives compress-then-decompress iff it is made of equal pairs. |
| Communication.ValidateMessage | MasoudyDictionary_Development/src/communication_engine.cpp:562-566 | A valid message's payload fits the 32-bit size field. |
| Communication.HelpersKeepValid | MasoudyDictionary_Development/src/communication_engine.cpp:562-566 | The cipher and compression keep a message valid; decompression does iff the doubled size still fits in 32 bits. |
| Communication.Serialize | MasoudyDictionary_Development/src/communication_engine.cpp:173-185 | The appends in SendMessage build exactly the frame. |
| Communication.Resized | MasoudyDictionary_Development/src/communication_engine.cpp:280 | `vector::resize` keeps the prefix and pads with zero bytes. |
| Communication.Delivered | MasoudyDictionary_Development/src/communication_engine.cpp:264-296 | The received message takes its four header fields from the parse; an empty payload keeps the old data, otherwise the data has the announced size. |
| Communication.FrameRoundTrip | MasoudyDictionary_Development/src/communication_engine.cpp:163-296 | A valid message with a payload, framed and then received with the same encryption setting, arrives unchanged. |
| Communication.SendAsWritten | MasoudyDictionary_Development/src/communication_engine.cpp:173-190 | As written, the frame carries the plain payload, and the caller's message is left encrypted. |
| Communication.ConnectTerminatesAsWritten | MasoudyDictionary_Development/src/communication_engine.cpp:63-125 | As written, an initialised connect that gets as far as starting the threads while the earlier ones still run terminates the process; never when none run or the engine is uninitialised. |
| Communication.ReconnectScenario | MasoudyDictionary_Development/src/communication_engine.cpp:589-596 | Two connects without a disconnect: the first succeeds, the second would terminate as written, and the corrected Connect reconnects with the threads running and the new socket. |
| Communication.SendAsWrittenGarblesPayload | MasoudyDictionary_Development/src/communication_engine.cpp:186-190 | With encryption on at both ends the receiver gets the payload XORed, not the original. |
| Communication.HeartbeatAsWritten | MasoudyDictionary_Development/src/communication_engine.cpp:241-248 | As written, the heartbeat's size field is whatever was left in memory. |
| Communication.HeartbeatAsWrittenInvalid | MasoudyDictionary_Development/src/communication_engine.cpp:241-248 | Any non-zero leftover makes the heartbeat fail ValidateMessage. |
| Communication.HeartbeatMessage | MasoudyDictionary_Development/src/communication_engine.cpp:241-248 | The corrected heartbeat has an empty payload with size 0 and is valid for positive sequence number and time. |
| Communication.PayloadMessage | MasoudyDictionary_Development/src/communication_engine.cpp:208-239 | Screen, input and control messages carry their payload and type, with the size cast to 32 bits. They are valid for a positive sequence number and time and a payload shorter than 2^32 bytes; a longer payload's truncated size no longer matches and the message is invalid. |
| Communication.GetProtocolName | MasoudyDictionary_Development/src/communication_engine.cpp:638-648 | Every protocol has a name other than "Unknown". |
| Communication.GetMessageTypeName | MasoudyDictionary_Development/src/communication_engine.cpp:650-661 | "Unknown" exactly for codes 7 and up (REMOTE_CONTROL and beyond). |
| Communication.GetConnectionStatusName | MasoudyDictionary_Development/src/communication_engine.cpp:663-671 | Every status has a name other than "Unknown". |
| Communication.GetErrorMessage | MasoudyDictionary_Development/src/communication_engine.cpp:621-630 | "Unknown error" exactly for codes outside 0..4. |
| Communication.ErrorMessagesDistinct | MasoudyDictionary_Development/src/communication_engine.cpp:621-630 | The five known codes have distinct messages. |
| Communication.IsValidPort | MasoudyDictionary_Development/src/communication_engine.cpp:678-680 | A port is valid iff it is a non-zero 16-bit value. |
| Communication.PortCheckAgrees | MasoudyDictionary_Development/src/communication_engine.cpp:678-680 | The engine's port check agrees with the validator's network port check. |
| Communication.Clamp | MasoudyDictionary_Development/src/communication_engine.cpp:383-389 | The result lies in 0..100, equals an in-range level, and is the nearer end otherwise. |
| Communication.TargetPort | MasoudyDictionary_Development/src/communication_engine.cpp:70-80 | Without ':' the configured port is used. |
| Communication.TargetPortOfHostPort | MasoudyDictionary_Development/src/communication_engine.cpp:70-80 | A "host:port" target written with a decimal port yields that port. |
| Communication.Successor | MasoudyDictionary_Development/src/communication_engine.cpp:610-613 | `++` on a uint32 adds one and wraps to 0 at 2^32-1. |
| Communication.AdvancedFromZero | MasoudyDictionary_Development/src/communication_engine.cpp:610-613 | From zero, the k-th increment yields k modulo 2^32, so calls return 1, 2, 3, …. |
| Communication.SequenceCounter.Next | MasoudyDictionary_Development/src/communication_engine.cpp:610-613 | The shared counter is incremented and the new value returned. |
| Communication.CommunicationEngine.constructor | MasoudyDictionary_Development/src/communication_engine.cpp:24-41 | Starts disconnected, uninitialised, unencrypted, with zero counters and the default settings. |
| Communication.CommunicationEngine.IsConnected | MasoudyDictionary_Development/src/communication_engine.cpp:155-157 | True iff the status is CONNECTED. |
| Communication.CommunicationEngine.Initialize | MasoudyDictionary_Development/src/communication_engine.cpp:50-54 | Stores the settings, marks the engine initialised and succeeds. |
| Communication.CommunicationEngine.Shutdown | MasoudyDictionary_Development/src/communication_engine.cpp:56-61 | An initialised engine is disconnected and marked uninitialised; otherwise nothing changes. |
| Communication.CommunicationEngine.Connect | MasoudyDictionary_Development/src/communication_engine.cpp:63-125 | Uninitialised: fails and changes nothing. Initialised: succeeds iff the port parses, the socket opens, the host resolves and the connect is accepted; a failure sets ERROR and leaves the threads as they were; the socket keeps its old value when the port does not parse and holds the new one otherwise. When the threads of an earlier connection still run, they are stopped before new ones start (the corrected behaviour; see Findings). |
| Communication.CommunicationEngine.StartThreads | MasoudyDictionary_Development/src/communication_engine.cpp:589-596 | Sets the flag the threads poll; callable only while no thread is joinable, which the source needs to avoid std::terminate. |
| Communication.CommunicationEngine.StopThreads | MasoudyDictionary_Development/src/communication_engine.cpp:598-608 | Clears the flag; afterwards no thread is joinable. |
| Communication.CommunicationEngine.Disconnect | MasoudyDictionary_Development/src/communication_engine.cpp:127-153 | Always ends DISCONNECTED with no socket; when already disconnected it changes nothing. |
| Communication.CommunicationEngine.SetEncryption | MasoudyDictionary_Development/src/communication_engine.cpp:331-343 | Stores the flag and succeeds. |
| Communication.CommunicationEngine.SetCompressionLevel | MasoudyDictionary_Development/src/communication_engine.cpp:383-385 | Stores the level clamped to 0..100. |
| Communication.CommunicationEngine.SetEncryptionLevel | MasoudyDictionary_Development/src/communication_engine.cpp:387-389 | Stores the level clamped to 0..100. |
| Communication.CommunicationEngine.SendMessage | MasoudyDictionary_Development/src/communication_engine.cpp:163-206 | Refused unless CONNECTED; succeeds iff `send` returns a positive count, appends that prefix of the frame to the wire, and advances the counters with wrap-around; a failure changes no counter. |
| Communication.CommunicationEngine.SendPayload | MasoudyDictionary_Development/src/communication_engine.cpp:208-239 | Draws the next sequence number whether or not the send succeeds, then sends the payload message as SendMessage does, with the same counter updates. |
| Communication.CommunicationEngine.SendHeartbeat | MasoudyDictionary_Development/src/communication_engine.cpp:241-248 | Draws the next sequence number, then sends the corrected heartbeat (size 0) as SendMessage does, with the same counter updates. |
| Communication.CommunicationEngine.ReceiveMessage | MasoudyDictionary_Development/src/communication_engine.cpp:250-302 | Succeeds iff CONNECTED and the header read returns a positive count, then yields the delivered message; the counters move only when a payload arrives. |
| Auth.TruncDiv | MasoudyDictionary_Development/src/auth_system.cpp:238-240 | `duration_cast` division truncates toward zero, for negative differences as well. |
| Auth.RoleOf | MasoudyDictionary_Development/src/auth_system.cpp:165-166 | The role is ADMIN iff the username is "admin". |
| Auth.KeyXorInvolution | MasoudyDictionary_Development/src/auth_system.cpp:131-144 | With a non-empty key, decrypting an encrypted string restores it. |
| Auth.AuthSystem.constructor | MasoudyDictionary_Development/src/auth_system.cpp:55-69 | No session and a zero counter; the key is the 32 random bytes, or 32 bytes of 0x42 when the generator fails. |
| Auth.AuthSystem.IsAccountLocked | MasoudyDictionary_Development/src/auth_system.cpp:249-258 | Locked iff the attempt limit is reached and less than 15 minutes (in milliseconds) have passed since the last failure; the whole-minute truncation changes no answer. |
| Auth.AuthSystem.IsSessionValid | MasoudyDictionary_Development/src/auth_system.cpp:232-242 | Valid iff the session is active and less than 24 hours (in milliseconds) have passed since login. |
| Auth.AuthSystem.IsAuthenticated | MasoudyDictionary_Development/src/auth_system.cpp:201-203 | Authenticated iff the session is valid. |
| Auth.AuthSystem.IsAdmin | MasoudyDictionary_Development/src/auth_system.cpp:205-207 | Admin implies authenticated. |
| Auth.AuthSystem.IsVictim | MasoudyDictionary_Development/src/auth_system.cpp:209-211 | Victim iff authenticated and not admin. |
| Auth.AuthSystem.ValidateCredentials | MasoudyDictionary_Development/src/auth_system.cpp:104-119 | Accepted iff the account is not locked and the password equals a user name that is "victim" or "admin". |
| Auth.AuthSystem.GetRoleString | MasoudyDictionary_Development/src/auth_system.cpp:268-274 | "Unauthenticated", "Admin" or "Victim", each exactly when the matching query holds. |
| Auth.AuthSystem.GetSessionInfo | MasoudyDictionary_Development/src/auth_system.cpp:276-288 | "No active session" without a session; otherwise the line starts with "User: " and the user name. With a stored session (always active) it is exactly the user label and name, the role label and role string, the session-id label and the first eight characters of the id, the "..." active label, and "Yes". |
| Auth.AuthSystem.Authenticate | MasoudyDictionary_Development/src/auth_system.cpp:152-199 | While locked nothing changes. The two fixed accounts open an active session with the right role and reset the counter. Any other attempt adds one failure at `now`. ACCOUNT_LOCKED is returned exactly when the account is locked afterwards. |
| Auth.AuthSystem.LockAccount | MasoudyDictionary_Development/src/auth_system.cpp:244-247 | Records `now` as the last failure. |
| Auth.AuthSystem.ResetFailedLoginCount | MasoudyDictionary_Development/src/auth_system.cpp:260-262 | The counter becomes 0. |
| Auth.AuthSystem.ClearSession | MasoudyDictionary_Development/src/auth_system.cpp:121-129 | No session remains. |
| Auth.AuthSystem.Logout | MasoudyDictionary_Development/src/auth_system.cpp:217-222 | No session remains, nobody is authenticated at any time, and the role string is "Unauthenticated". |
| Auth.AuthSystem.RefreshSession | MasoudyDictionary_Development/src/auth_system.cpp:224-230 | An active session records `now` as its last activity and true is returned; without one, false and nothing changes. |
| Auth.AuthSystem.EncryptString | MasoudyDictionary_Development/src/auth_system.cpp:131-139 | Each byte is XORed with the key byte at its index modulo the key length. |
| Auth.AuthSystem.DecryptString | MasoudyDictionary_Development/src/auth_system.cpp:141-144 | The same XOR, which with a non-empty key undoes encryptString. |
| Auth.AuthSystem.SecureWipe | MasoudyDictionary_Development/src/auth_system.cpp:299-308 | No session, an empty key and a zero counter. |
| Auth.RolesExclusive | MasoudyDictionary_Development/src/auth_system.cpp:201-211 | isAdmin and isVictim each imply isAuthenticated, never hold together, and one of them holds whenever someone is authenticated. |
| Auth.LockoutExpires | MasoudyDictionary_Development/src/auth_system.cpp:249-258 | At the attempt limit, the account is locked from the last failure until 15 whole minutes have passed, and open afterwards. |
| Auth.SessionLastsADay | MasoudyDictionary_Development/src/auth_system.cpp:232-242 | An active session is valid before 24 whole hours from login and invalid from then on. |
| Auth.LockoutScenario | MasoudyDictionary_Development/src/auth_system.cpp:152-199 | Three wrong passwords give INVALID, INVALID, LOCKED; the right password is then refused, and it is accepted once 15 minutes have passed. |
| Errors.GetSeverityString | MasoudyDictionary_Development/src/core/error_handler.cpp:114-122 | Every severity has a non-empty name without ']'. |
| Errors.GetCategoryString | MasoudyDictionary_Development/src/core/error_handler.cpp:124-135 | Every category has a non-empty name without ']'. |
| Errors.SeverityNames | MasoudyDictionary_Development/src/core/error_handler.cpp:114-122 | Each severity name reads back to its severity, and only that name does. |
| Errors.CategoryNames | MasoudyDictionary_Development/src/core/error_handler.cpp:124-135 | Each category name reads back to its category, and only that name does. |
| Errors.NamesDistinct | MasoudyDictionary_Development/src/core/error_handler.cpp:114-135 | Two severities, or two categories, share a name iff they are equal. |
| Errors.IsCriticalError | MasoudyDictionary_Development/src/core/error_handler.cpp:96-98 | A record is critical iff its severity name is "CRITICAL". |
| Errors.Location | MasoudyDictionary_Development/src/core/error_handler.cpp:79-85 | The location piece is empty iff no function is named; otherwise it opens with '(', the function name follows at once, and it closes with ") ". A line number that is not positive adds nothing (the piece is the name plus three characters); a positive one follows the name after ':' and reads back as that number. |
| Errors.NonPositiveLineIgnored | MasoudyDictionary_Development/src/core/error_handler.cpp:79-85 | A record whose line number is zero or negative formats exactly like the same record with line number 0; its location is "(" + name + ") " or empty. |
| Errors.DetailsSuffix | MasoudyDictionary_Development/src/core/error_handler.cpp:89-91 | The details piece is empty iff there are no details; otherwise it is " - " and the details. |
| Errors.FormatError | MasoudyDictionary_Development/src/core/error_handler.cpp:72-94 | A log line is exactly as long as its tags, timestamp, one space, location, message and details together. |
| Errors.FormatErrorLayout | MasoudyDictionary_Development/src/core/error_handler.cpp:72-94 | A log line starts with the tags, timestamp and a space, ends with the message and details, and has a location between them iff a function is named. |
| Errors.FormatErrorTags | MasoudyDictionary_Development/src/core/error_handler.cpp:75-76 | Reading the two bracketed names at the start of a log line gives back the record's severity and category, whatever the message says. |
| Errors.ErrorHandler.LogError | MasoudyDictionary_Development/src/core/error_handler.cpp:51-59 | Writes the formatted line to the console and hands the record to the log callback once, when one is set. |
| Errors.ErrorHandler.AttemptRecovery | MasoudyDictionary_Development/src/core/error_handler.cpp:65-70 | False without a recovery callback, else the callback's answer for the record. |
| Errors.ErrorHandler.ReportError | MasoudyDictionary_Development/src/core/error_handler.cpp:29-45 | Logs a record with exactly the given severity, category, message, details, function, line and timestamp, once. |
| Errors.ErrorHandler.SetLogCallback | MasoudyDictionary_Development/src/core/error_handler.cpp:47-49 | Sets or clears the log callback. |
| Errors.ErrorHandler.SetRecoveryCallback | MasoudyDictionary_Development/src/core/error_handler.cpp:61-63 | Stores the recovery callback. |
| Errors.InstanceSlot.GetInstance | MasoudyDictionary_Development/src/core/error_handler.cpp:22-27 | Creates the handler on first use and afterwards returns that same handler. |
| Errors.SameInstance | MasoudyDictionary_Development/src/core/error_handler.cpp:22-27 | Two calls of getInstance return the same handler. |

## Left out

- Sockets, threads and host resolution. Whatever `socket`, `gethostbyname`, `connect`, `send` and `recv` return is a parameter of the method that calls them. `HasMessage`, `GetAllMessages`, the receive and heartbeat thread procedures, and the threads that `StartReceiveThread`/`StopReceiveThread` create and join are concurrency. Only the `running` flag they poll is kept, and while it is set the threads are joinable (StartThreads, StopThreads).
- Clocks and randomness. Every clock reading is a `now` parameter, and the error record's wall-clock timestamp string is a parameter. `GenerateEncryptionKey`, `generateSessionId` and `RAND_bytes` become parameters: the session id string, and the constructor's random bytes and success flag.
- Communication.CommunicationEngine.Connect: models the corrected reconnect, which stops still-running threads before starting new ones; as written the process terminates there (see Findings), which ConnectTerminatesAsWritten and ReconnectScenario capture. The socket of the earlier connection is not closed by the source, and the model does not track it. `sock` is what `socket` returned, `resolves` says whether the host resolved, and `accepted` is `connect`'s verdict. The Windows named-pipe and protocol-specific initialisers are stubs and are not modelled.
- Communication.CommunicationEngine.ReceiveMessage: `header` is the 20-byte buffer as it stands after `recv`, `got` is the count `recv` returned, and `received` is the payload bytes that arrived. A short header read is not distinguished from a full one, just as the code does not distinguish it.
- Communication.CommunicationEngine: the compression and encryption levels are never set by the constructor. The model leaves them unconstrained until a setter runs. The callbacks, the remote-only flag, the average latency (a `double`) and the plain getters (`GetStatus`, `GetBytesSent`, …) are not modelled; each getter only reads a field the model keeps.
- Communication.CommunicationEngine.SendHeartbeat: sends the corrected heartbeat, whose size field is 0. The source sends whatever value the uninitialised field holds (see Findings). The as-written message is HeartbeatAsWritten.
- Communication.CommunicationEngine.SendMessage: the caller's message is not modelled as encrypted in place. The model sends the corrected frame (see Findings). The as-written behaviour is captured by SendAsWritten.
- The remote-control path of the engine is not part of this model: `ExchangeEncryptionKeys`, `Authenticate`, `SendRemoteControlCommand`, `ProcessRemoteControlMessage` and `SetInputHandler`. So are the stealth and injection code, the screen capture and network scanner, and the GUI.
- Auth: `hashPassword` (SHA-256 through OpenSSL or a stub) is a foreign call that `authenticate` never uses. `logSecurityEvent` only writes to the console. `getCurrentSession` and `getFailedLoginCount` only read fields the model keeps.
- Auth.AuthSystem.Authenticate: the ERROR status comes only from an exception, such as a failed allocation, so it is not modelled. The two clock readings the code takes during one call are modelled as a single `now`. The failed-attempt counter is an unbounded integer; the source's `int` would overflow after 2^31 failures.
- Auth.AuthSystem.ClearSession: zero-filling the user name before the session is dropped is not observable afterwards, so it is not modelled.
- Auth: time points are taken to be whole milliseconds. The system clock may tick finer. Then a whole-minute or whole-hour count can differ by one at the boundary. For example, with a failure at 0.5 ms and a check at 900000.2 ms, the source counts 14 minutes, but the two points cut to whole milliseconds give 15.
- Auth.AuthSystem.EncryptString: requires a non-empty key or an empty input. The code divides by the key length, and after `secureWipe` the key is empty.
- Errors.ErrorHandler: the log callback's own effect is unknown code. The model keeps only whether one is set and the records it was handed. The recovery callback is a pure function of the record, so its call inside reportError, whose answer is dropped, has no modelled effect. The console is a sequence of lines.
- Errors: `MasoudyException` and the reporting macros only package records or call `reportError`. `clearErrors` does nothing. `getCurrentTimestamp` reads the clock.
- Errors.GetSeverityString, Errors.GetCategoryString: the "UNKNOWN" default branch serves only out-of-range enum values, which the datatypes cannot hold.
- ConfigValidation.ConfigManager: loading and saving files, the JSON stubs, `ExportConfiguration`/`ImportConfiguration` on file names, `setSetting`, `getSections`, `resetToDefaults`, `getValidationSummary` and `isConfigurationValid` are not modelled. They are file I/O, stubs, or report formatting outside this model.
- ConfigValidation.ConfigManager: `validateCurrentConfiguration` is a stub that always answers VALID. `getSectionSettings`, `getErrors` and `getWarnings` only forward to the validator: its section lookup and its `GetErrors("")` and `GetWarnings("")`. None of the four is modelled as a member of its own.
- ConfigValidation.ConfigValidator: `generateSampleConfig` only returns `generateDefaultConfig()`, which `ConfigRules.GenerateDefaultConfig` models.
- Errors.ErrorHandler.ReportError: the source's default arguments (empty details, empty function name, line 0) are required parameters here; callers pass those defaults explicitly.
- ConfigRules: `validateRange` and `validateEnum` are never called by the rule loop and are not modelled.

## Findings

| source | as written | input that shows it | evidently intended | confidence | as-written member | corrected member |
|---|---|---|---|---|---|---|
| MasoudyDictionary_Development/src/communication_engine.cpp:173-190 | SendMessage serialises the header and payload first and XORs the caller's message only afterwards, so the frame on the wire carries the plain payload; a receiver with encryption on XORs it and gets a garbled payload | encryption on at both ends, payload [0x41]: the receiver reads [0x03] | encrypt the payload before it is copied into the frame, so the receiver's XOR restores it | not executed | Communication.SendAsWrittenGarblesPayload | Communication.FrameRoundTrip |
| MasoudyDictionary_Development/src/communication_engine.cpp:589-596 | Connect starts the receive (and heartbeat) thread by assigning a new `std::thread` to a member that still holds the thread of an earlier connection; assigning to a still-joinable `std::thread` calls std::terminate | an initialised engine, a successful connect to "1.2.3.4", then a second successful connect to it without a disconnect (a failed reconnect in between leaves the threads running too) | stop and join the earlier threads before starting new ones | not executed | Communication.ConnectTerminatesAsWritten | Communication.CommunicationEngine.Connect |
| MasoudyDictionary_Development/src/communication_engine.cpp:241-248 | SendHeartbeat never assigns `dataSize`, so the header carries whatever the uninitialised field held; the receiver then waits for that many payload bytes, and the message fails ValidateMessage | any heartbeat whose leftover `dataSize` is non-zero | set `dataSize` to 0 for the empty payload | not executed | Communication.HeartbeatAsWrittenInvalid | Communication.HeartbeatMessage |
