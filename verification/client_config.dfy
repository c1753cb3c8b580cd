/**
 * `P2PClient::parseCommandLine` (src/client/client.h): the five arguments after the
 * program name, three of them read with `std::stoi` and truncated to 16 bits.
 */
module ClientConfigs {
  import opened Wrappers
  import opened Addresses

  datatype ClientConfig = ClientConfig(name: string, serverIp: string, serverPort: Port, udpPort: Port, tcpPort: Port)

  const IntMin: int := -0x8000_0000
  const IntMax: int := 0x7FFF_FFFF

  /** The characters `isspace` accepts in the "C" locale. */
  predicate IsSpace(c: char)
  {
    c == ' ' || c == '\t' || c == '\n' || c == '\r' || c == '\U{0B}' || c == '\U{0C}'
  }

  /** `s` without its leading white space. */
  function SkipSpace(s: string): (r: string)
    ensures |r| <= |s| && r == s[|s| - |r|..]
    ensures r == [] || !IsSpace(r[0])
  {
    if s != [] && IsSpace(s[0]) then SkipSpace(s[1..]) else s
  }

  /** The longest prefix of decimal digits. */
  function DigitPrefix(s: string): (d: string)
    ensures |d| <= |s| && d == s[..|d|]
    ensures forall i :: 0 <= i < |d| ==> IsDigit(d[i])
    ensures |d| < |s| ==> !IsDigit(s[|d|])
  {
    if s == [] || !IsDigit(s[0]) then [] else [s[0]] + DigitPrefix(s[1..])
  }

  /**
   * `std::stoi(s)`: white space, an optional sign and at least one digit; what follows is
   * ignored. No digits, or a value outside `int`, throws with the text "stoi".
   */
  function Stoi(s: string): (r: Result<int>)
    ensures r.Success? ==> IntMin <= r.value <= IntMax
    ensures r.Failure? ==> r.error == "stoi"
  {
    var t := SkipSpace(s);
    if t != [] && (t[0] == '-' || t[0] == '+') then SignedValue(t[0] == '-', DigitPrefix(t[1..]))
    else SignedValue(false, DigitPrefix(t))
  }

  /** The value of the digits read, negated after a minus sign, when there is at least one digit and it fits. */
  function SignedValue(negative: bool, digits: string): Result<int>
    requires forall i :: 0 <= i < |digits| ==> IsDigit(digits[i])
  {
    if digits == [] then Failure("stoi")
    else
      var magnitude: int := DecimalValue(digits);
      var v := if negative then -magnitude else magnitude;
      if v < IntMin || v > IntMax then Failure("stoi") else Success(v)
  }

  /** `static_cast<uint16_t>` of an `int`: the value modulo 2^16. */
  function ToUint16(v: int): Port
  {
    (v % 0x1_0000) as Port
  }

  const WrongCount := "Invalid number of arguments"
  const Prefix := "Error parsing arguments: "
  const BadPorts := Prefix + "Port numbers must be between 1 and 65535"
  const SamePorts := Prefix + "TCP and UDP ports must be different"

  /** `parseCommandLine` on `argv[0..argc]`: any count but six is refused first. */
  function ParseCommandLine(args: seq<string>): (r: Result<ClientConfig>)
    ensures |args| != 6 <==> r == Failure(WrongCount)
    ensures r.Success? ==> r.value.name == args[1] && r.value.serverIp == args[2]
  {
    if |args| != 6 then Failure(WrongCount)
    else
      match (Stoi(args[3]), Stoi(args[4]), Stoi(args[5]))
      case (Success(s), Success(u), Success(t)) =>
        var server, udp, tcp := ToUint16(s), ToUint16(u), ToUint16(t);
        if server <= 0 || server as int > 65535 || tcp <= 0 || tcp as int > 65535 then Failure(BadPorts)
        else if tcp == udp then Failure(SamePorts)
        else Success(ClientConfig(args[1], args[2], server, udp, tcp))
      case _ => Failure(Prefix + "stoi")
  }

  /** An accepted configuration has non-zero server and TCP ports and distinct TCP and UDP ports. */
  lemma AcceptedConfig(args: seq<string>)
    requires ParseCommandLine(args).Success?
    ensures var c := ParseCommandLine(args).value;
      && |args| == 6 && c.name == args[1] && c.serverIp == args[2]
      && c.serverPort != 0 && c.tcpPort != 0 && c.tcpPort != c.udpPort
  {
  }

  /** Only a wrong count fails without the prefix; every other failure carries it. */
  lemma FailureMessages(args: seq<string>)
    requires ParseCommandLine(args).Failure?
    ensures ParseCommandLine(args).error == WrongCount <==> |args| != 6
    ensures |args| == 6 ==> ParseCommandLine(args).error in {Prefix + "stoi", BadPorts, SamePorts}
  {
  }

  /** `stoi` reads back a decimal numeral in `int` range. */
  lemma StoiDecimal(n: nat)
    requires n <= IntMax
    ensures Stoi(Decimal(n)) == Success(n)
  {
    DecimalRoundTrip(n);
    StoiDigits(Decimal(n));
  }

  /** `stoi` of a non-empty string of digits is its value, when that fits an `int`. */
  lemma StoiDigits(d: string)
    requires d != [] && forall i :: 0 <= i < |d| ==> IsDigit(d[i])
    requires DecimalValue(d) <= IntMax
    ensures Stoi(d) == Success(DecimalValue(d))
  {
    NoSpaceNoSign(d);
    DigitPrefixAll(d);
  }

  /** Text that starts with a digit is read from its first character, without a sign. */
  lemma NoSpaceNoSign(d: string)
    requires d != [] && IsDigit(d[0])
    ensures Stoi(d) == SignedValue(false, DigitPrefix(d))
  {
    assert SkipSpace(d) == d;
  }

  lemma {:induction false} DigitPrefixAll(s: string)
    requires forall i :: 0 <= i < |s| ==> IsDigit(s[i])
    ensures DigitPrefix(s) == s
  {
    if s != [] {
      DigitPrefixAll(s[1..]);
    }
  }

  /**
   * Ports given as decimal numerals are truncated to 16 bits before they are checked: a
   * numeral of 65536 reads as 0 and is refused, 70000 reads as 4464 and is accepted, and a
   * UDP port of 0 passes. Below 65536 the ports come back as written.
   */
  lemma PortsTruncated(prog: string, name: string, ip: string, s: nat, u: nat, t: nat)
    requires s <= IntMax && u <= IntMax && t <= IntMax
    ensures ParseCommandLine([prog, name, ip, Decimal(s), Decimal(u), Decimal(t)]) ==
      if s % 0x1_0000 == 0 || t % 0x1_0000 == 0 then Failure(BadPorts)
      else if t % 0x1_0000 == u % 0x1_0000 then Failure(SamePorts)
      else Success(ClientConfig(name, ip, ToUint16(s), ToUint16(u), ToUint16(t)))
  {
    var args := [prog, name, ip, Decimal(s), Decimal(u), Decimal(t)];
    StoiDecimal(s);
    StoiDecimal(u);
    StoiDecimal(t);
    assert args[1] == name && args[2] == ip;
    assert args[3] == Decimal(s) && args[4] == Decimal(u) && args[5] == Decimal(t);
    ParseWithValues(args, s, u, t);
  }

  /** Once the three numerals have been read, only the truncated values decide the outcome. */
  lemma ParseWithValues(args: seq<string>, s: int, u: int, t: int)
    requires |args| == 6
    requires Stoi(args[3]) == Success(s) && Stoi(args[4]) == Success(u) && Stoi(args[5]) == Success(t)
    ensures ParseCommandLine(args) ==
      if s % 0x1_0000 == 0 || t % 0x1_0000 == 0 then Failure(BadPorts)
      else if t % 0x1_0000 == u % 0x1_0000 then Failure(SamePorts)
      else Success(ClientConfig(args[1], args[2], ToUint16(s), ToUint16(u), ToUint16(t)))
  {
    assert ToUint16(s) as int == s % 0x1_0000;
    assert ToUint16(u) as int == u % 0x1_0000;
    assert ToUint16(t) as int == t % 0x1_0000;
  }
}
