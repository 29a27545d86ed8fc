/** The configuration check run before deployment: the four network
    settings are validated in a fixed order, the first failing check aborts
    with its own message, and a valid configuration is echoed with the SSID
    and host cut short. */
module ConfigCheck {
  import opened Wrappers
  import opened Decimal

  /** The Python values a configuration setting can hold. */
  datatype PyValue =
    | PyStr(s: string)
    | PyInt(i: int)
    | PyBool(b: bool)
    | PyNone

  /** The four settings the check imports. */
  datatype Config = Config(ssid: PyValue, password: PyValue, host: PyValue, port: PyValue)

  /** The assertion that failed. */
  datatype ConfigError =
    | EmptySsid
    | EmptyPassword
    | EmptyHost
    | PortNotInteger
    | PortOutOfRange

  /** Python truthiness: empty text, zero, False and None are false. */
  predicate Truthy(v: PyValue)
  {
    match v
    case PyStr(s) => |s| > 0
    case PyInt(i) => i != 0
    case PyBool(b) => b
    case PyNone => false
  }

  /** `isinstance(v, int)`: in Python a bool is an int too. */
  predicate IsInt(v: PyValue)
  {
    v.PyInt? || v.PyBool?
  }

  /** The integer an int-like value compares as. */
  function IntValue(v: PyValue): int
    requires IsInt(v)
  {
    match v
    case PyInt(i) => i
    case PyBool(b) => if b then 1 else 0
  }

  predicate PortInRange(v: PyValue)
    requires IsInt(v)
  {
    1 <= IntValue(v) <= 65535
  }

  /** The assertions, in order; the first that fails aborts the check. */
  function Validate(c: Config): (r: Outcome<ConfigError>)
    ensures r == Fail(EmptySsid) <==> !Truthy(c.ssid)
    ensures r == Fail(EmptyPassword) <==> Truthy(c.ssid) && !Truthy(c.password)
    ensures r == Fail(EmptyHost) <==>
      Truthy(c.ssid) && Truthy(c.password) && !Truthy(c.host)
    ensures r == Fail(PortNotInteger) <==>
      Truthy(c.ssid) && Truthy(c.password) && Truthy(c.host) && !IsInt(c.port)
    ensures r == Fail(PortOutOfRange) <==>
      Truthy(c.ssid) && Truthy(c.password) && Truthy(c.host) &&
      IsInt(c.port) && !PortInRange(c.port)
  {
    if !Truthy(c.ssid) then Fail(EmptySsid)
    else if !Truthy(c.password) then Fail(EmptyPassword)
    else if !Truthy(c.host) then Fail(EmptyHost)
    else if !IsInt(c.port) then Fail(PortNotInteger)
    else if !PortInRange(c.port) then Fail(PortOutOfRange)
    else Pass
  }

  /** A configuration passes exactly when every setting is present and the
      port is an integer in 1..65535. */
  lemma ValidIffAllChecksPass(c: Config)
    ensures Validate(c).Pass? <==>
      Truthy(c.ssid) && Truthy(c.password) && Truthy(c.host) &&
      IsInt(c.port) && 1 <= IntValue(c.port) <= 65535
  {
  }

  /** `True` is accepted as port 1, since a bool is an int equal to 1. */
  lemma TrueIsPortOne(c: Config)
    requires Truthy(c.ssid) && Truthy(c.password) && Truthy(c.host)
    requires c.port == PyBool(true)
    ensures Validate(c).Pass?
  {
  }

  /** The message each failed assertion prints. */
  function Message(e: ConfigError): string
  {
    match e
    case EmptySsid => "WIFI_SSID cannot be empty"
    case EmptyPassword => "WIFI_PASSWORD cannot be empty"
    case EmptyHost => "VECTOR_HOST cannot be empty"
    case PortNotInteger => "VECTOR_PORT must be an integer"
    case PortOutOfRange => "VECTOR_PORT must be in range 1-65535"
  }

  // ---------------------------------------------------------------------
  // The echo

  function Min(a: int, b: int): int
  {
    if a < b then a else b
  }

  /** `v[:keep] + "***"`; only text can be sliced (None otherwise, where
      Python raises TypeError). */
  function Masked(v: PyValue, keep: nat): (r: Option<string>)
    ensures r.Some? <==> v.PyStr?
    ensures r.Some? ==> |r.value| == Min(keep, |v.s|) + 3
    ensures r.Some? ==> r.value[..Min(keep, |v.s|)] == v.s[..Min(keep, |v.s|)]
    ensures r.Some? ==> forall k :: Min(keep, |v.s|) <= k < |r.value| ==> r.value[k] == '*'
  {
    match v
    case PyStr(s) => Some(s[..Min(keep, |s|)] + "***")
    case _ => None
  }

  /** `str(v)` of the port. */
  function PortText(v: PyValue): string
    requires IsInt(v)
  {
    match v
    case PyInt(i) => Show(i)
    case PyBool(b) => if b then "True" else "False"
  }

  /** Distinct assertions fail with distinct messages, so the message alone
      tells which setting is wrong. */
  lemma MessageIdentifiesAssertion(e1: ConfigError, e2: ConfigError)
    ensures Message(e1) == Message(e2) <==> e1 == e2
  {
  }

  /** Why the check stops: a failed assertion with the message it raises, or
      the TypeError of slicing a setting that is not text. */
  datatype CheckFailure = AssertionFailed(e: ConfigError, message: string) | SliceTypeError

  /** The lines printed, and the exception that ended the check, if any. */
  datatype Transcript = Transcript(lines: seq<string>, failure: Option<CheckFailure>)

  /** What the check prints. A failed assertion prints nothing. Each echo
      line is formatted before it is printed, so a setting that cannot be
      sliced stops the check after the lines before it. */
  function Report(c: Config): (t: Transcript)
    ensures Validate(c).Fail? <==> t.failure.Some? && t.failure.value.AssertionFailed?
    ensures Validate(c).Fail? ==>
      t == Transcript([], Some(AssertionFailed(Validate(c).error, Message(Validate(c).error))))
    ensures t.failure == Some(SliceTypeError) <==>
      Validate(c).Pass? && !(c.ssid.PyStr? && c.host.PyStr?)
    ensures Validate(c).Pass? && c.ssid.PyStr? ==>
      |t.lines| >= 1 && t.lines[0] == "Network: " + c.ssid.s[..Min(3, |c.ssid.s|)] + "***"
    ensures Validate(c).Pass? && !c.ssid.PyStr? ==> t.lines == []
    ensures t.failure.None? ==>
      c.host.PyStr? && IsInt(c.port) && |t.lines| == 3 &&
      t.lines[1] == "Vector: " + c.host.s[..Min(8, |c.host.s|)] + "***:" + PortText(c.port) &&
      t.lines[2] == "Config loaded successfully!"
    ensures t.failure == Some(SliceTypeError) && c.ssid.PyStr? ==> |t.lines| == 1
  {
    match Validate(c)
    case Fail(e) => Transcript([], Some(AssertionFailed(e, Message(e))))
    case Pass =>
      match Masked(c.ssid, 3)
      case None => Transcript([], Some(SliceTypeError))
      case Some(ssid) =>
        var network := "Network: " + ssid;
        match Masked(c.host, 8)
        case None => Transcript([network], Some(SliceTypeError))
        case Some(host) =>
          Transcript([network, "Vector: " + host + ":" + PortText(c.port),
                      "Config loaded successfully!"], None)
  }

  /** The echo never shows more than the first 3 characters of the SSID nor
      more than the first 8 of the host, and what it shows is their start. */
  lemma EchoHidesSecrets(ssid: string, host: string)
    ensures Masked(PyStr(ssid), 3).value == ssid[..Min(3, |ssid|)] + "***"
    ensures Masked(PyStr(host), 8).value == host[..Min(8, |host|)] + "***"
    ensures |Masked(PyStr(ssid), 3).value| <= 6
    ensures |Masked(PyStr(host), 8).value| <= 11
  {
  }

  /** A valid configuration is echoed in full exactly when its SSID and host
      are text; the check then ends without an exception. */
  lemma ValidTextConfigIsEchoed(c: Config)
    requires Validate(c).Pass?
    ensures Report(c).failure.None? <==> c.ssid.PyStr? && c.host.PyStr?
  {
  }
}
