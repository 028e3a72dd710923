/** Start-up configuration of the demo program: the option loop over argv,
    its defaults, the I2C address parser, and the checks made before any
    hardware is touched. */
module Cli {
  import opened Types

  /** `hasPrefix(s, p)`, compared character by character. */
  function HasPrefix(s: string, p: string): (r: bool)
    ensures r <==> p <= s
    decreases |p|
  {
    if |p| == 0 then true
    else if |s| == 0 || s[0] != p[0] then false
    else HasPrefix(s[1..], p[1..])
  }

  predicate IsHexPrefixed(s: string)
  {
    HasPrefix(s, "0x") || HasPrefix(s, "0X")
  }

  /** The value of one digit character in base 10 or 16, if it is one. */
  function DigitValue(c: char, base: nat): (d: Option<nat>)
    requires base == 10 || base == 16
    ensures d.Some? ==> d.value < base
    ensures ('0' <= c <= '9') ==> d.Some?
  {
    if '0' <= c <= '9' then Some(c as int - '0' as int)
    else if base == 16 && 'a' <= c <= 'f' then Some(c as int - 'a' as int + 10)
    else if base == 16 && 'A' <= c <= 'F' then Some(c as int - 'A' as int + 10)
    else None
  }

  /** The value of a non-empty run of digits, or None when the text is empty
      or holds a character that is not a digit of the base. */
  function ParseDigits(ds: string, base: nat): (r: Option<nat>)
    requires base == 10 || base == 16
    ensures r.Some? <==> |ds| > 0 && forall i :: 0 <= i < |ds| ==> DigitValue(ds[i], base).Some?
    decreases |ds|
  {
    if |ds| == 0 then None
    else
      var last := DigitValue(ds[|ds| - 1], base);
      if last.None? then None
      else if |ds| == 1 then Some(last.value)
      else match ParseDigits(ds[..|ds| - 1], base)
        case None => None
        case Some(v) => Some(v * base + last.value)
  }

  /** The digit character of value `d` (lower case in base 16). */
  function DigitChar(d: nat, base: nat): (c: char)
    requires base == 10 || base == 16
    requires d < base
    ensures DigitValue(c, base) == Some(d)
  {
    if d < 10 then ('0' as int + d) as char else ('a' as int + d - 10) as char
  }

  /** The shortest digit text of `v` in the base. */
  function NatText(v: nat, base: nat): (s: string)
    requires base == 10 || base == 16
    ensures |s| > 0
    ensures forall i :: 0 <= i < |s| ==> DigitValue(s[i], base).Some?
    decreases v
  {
    if v < base then [DigitChar(v, base)]
    else NatText(v / base, base) + [DigitChar(v % base, base)]
  }

  /** Digit text reads back as the number it was written from. */
  lemma {:induction false} ParseNatText(v: nat, base: nat)
    requires base == 10 || base == 16
    ensures ParseDigits(NatText(v, base), base) == Some(v)
    decreases v
  {
    if v >= base {
      var s := NatText(v, base);
      assert s[..|s| - 1] == NatText(v / base, base);
      ParseNatText(v / base, base);
    }
  }

  /** A leading zero does not change the value of a digit text. */
  lemma {:induction false} LeadingZero(ds: string, base: nat)
    requires base == 10 || base == 16
    requires |ds| > 0
    ensures ParseDigits(['0'] + ds, base) == ParseDigits(ds, base)
    decreases |ds|
  {
    var zs := ['0'] + ds;
    assert zs[..|zs| - 1] == ['0'] + ds[..|ds| - 1];
    assert zs[|zs| - 1] == ds[|ds| - 1];
    if |ds| > 1 {
      LeadingZero(ds[..|ds| - 1], base);
    }
  }

  /** Any number of leading zeros leave the value unchanged. */
  lemma {:induction false} LeadingZeros(k: nat, ds: string, base: nat)
    requires base == 10 || base == 16
    requires |ds| > 0
    ensures ParseDigits(seq(k, _ => '0') + ds, base) == ParseDigits(ds, base)
    decreases k
  {
    if k == 0 {
      assert seq(k, _ => '0') + ds == ds;
    } else {
      var zs := seq(k - 1, _ => '0');
      assert seq(k, _ => '0') + ds == ['0'] + (zs + ds);
      LeadingZero(zs + ds, base);
      LeadingZeros(k - 1, ds, base);
    }
  }

  /** The upper-case hexadecimal digit character of value `d`. */
  function UpperDigitChar(d: nat): (c: char)
    requires d < 16
    ensures DigitValue(c, 16) == Some(d)
  {
    if d < 10 then ('0' as int + d) as char else ('A' as int + d - 10) as char
  }

  /** The shortest upper-case hexadecimal text of `v`. */
  function UpperHexText(v: nat): (s: string)
    ensures |s| > 0
    ensures forall i :: 0 <= i < |s| ==> DigitValue(s[i], 16).Some?
    decreases v
  {
    if v < 16 then [UpperDigitChar(v)]
    else UpperHexText(v / 16) + [UpperDigitChar(v % 16)]
  }

  /** Upper-case hexadecimal text reads back as the number it was written from. */
  lemma {:induction false} ParseUpperHexText(v: nat)
    ensures ParseDigits(UpperHexText(v), 16) == Some(v)
    decreases v
  {
    if v >= 16 {
      var s := UpperHexText(v);
      assert s[..|s| - 1] == UpperHexText(v / 16);
      ParseUpperHexText(v / 16);
    }
  }

  datatype CliError =
    | MissingValue(option: string)
    | UnknownOption(option: string)
    | BadNumber(text: string)
    | BadByte(text: string)
    | CloseAboveOpen
    | NonPositiveInterval

  /** `parseHexByte`: hexadecimal after a "0x"/"0X" prefix, decimal
      otherwise; every character after the prefix must be a digit and the
      value must fit in one byte. */
  function ParseHexByte(s: string): (r: Result<byte, CliError>)
    ensures r.Err? ==> r.error == BadByte(s)
    ensures IsHexPrefixed(s) ==>
      (r.Ok? <==> ParseDigits(s[2..], 16).Some? && ParseDigits(s[2..], 16).value <= 0xFF)
    ensures IsHexPrefixed(s) && r.Ok? ==> ParseDigits(s[2..], 16) == Some(r.value)
    ensures !IsHexPrefixed(s) ==>
      (r.Ok? <==> ParseDigits(s, 10).Some? && ParseDigits(s, 10).value <= 0xFF)
    ensures !IsHexPrefixed(s) && r.Ok? ==> ParseDigits(s, 10) == Some(r.value)
  {
    var base := if IsHexPrefixed(s) then 16 else 10;
    var digits := if base == 16 then s[2..] else s;
    match ParseDigits(digits, base)
    case None => Err(BadByte(s))
    case Some(v) => if v > 0xFF then Err(BadByte(s)) else Ok(v)
  }

  /** Digit text in base 10 never carries the hexadecimal prefix. */
  lemma DecimalTextIsNotHexPrefixed(v: nat)
    ensures !IsHexPrefixed(NatText(v, 10))
  {
    var d := NatText(v, 10);
    if |d| >= 2 {
      assert DigitValue(d[1], 10).Some?;
    }
  }

  /** Text behind either prefix is read in base 16. */
  lemma HexPrefixed(prefix: string, t: string)
    requires prefix == "0x" || prefix == "0X"
    ensures IsHexPrefixed(prefix + t)
    ensures (prefix + t)[2..] == t
  {
    assert prefix <= prefix + t;
  }

  /** Every byte written in decimal, or in hexadecimal behind either prefix,
      parses back to itself. */
  lemma ParseHexByteRoundTrip(b: byte, prefix: string)
    requires prefix == "0x" || prefix == "0X"
    ensures ParseHexByte(NatText(b, 10)) == Ok(b)
    ensures ParseHexByte(prefix + NatText(b, 16)) == Ok(b)
  {
    ParseNatText(b, 10);
    DecimalTextIsNotHexPrefixed(b);
    ParseNatText(b, 16);
    HexPrefixed(prefix, NatText(b, 16));
  }

  /** Zero-padded decimal text never carries the hexadecimal prefix. */
  lemma PaddedDecimalIsNotHexPrefixed(k: nat, v: nat)
    ensures !IsHexPrefixed(seq(k, _ => '0') + NatText(v, 10))
  {
    var dec := seq(k, _ => '0') + NatText(v, 10);
    if k == 0 {
      assert dec == NatText(v, 10);
      DecimalTextIsNotHexPrefixed(v);
    } else if |dec| >= 2 {
      if k >= 2 {
        assert dec[1] == '0';
      } else {
        assert dec[1] == NatText(v, 10)[0];
        assert DigitValue(dec[1], 10).Some?;
      }
    }
  }

  /** Leading zeros are accepted in decimal: every byte written with `k`
      leading zeros parses back to itself. */
  lemma ParseHexBytePaddedDecimal(b: byte, k: nat)
    ensures ParseHexByte(seq(k, _ => '0') + NatText(b, 10)) == Ok(b)
  {
    ParseNatText(b, 10);
    LeadingZeros(k, NatText(b, 10), 10);
    PaddedDecimalIsNotHexPrefixed(k, b);
  }

  /** Leading zeros and upper-case digits are accepted in hexadecimal: every
      byte written with `k` leading zeros, in either case, behind either
      prefix, parses back to itself. */
  lemma ParseHexBytePaddedHex(b: byte, k: nat, prefix: string)
    requires prefix == "0x" || prefix == "0X"
    ensures ParseHexByte(prefix + (seq(k, _ => '0') + NatText(b, 16))) == Ok(b)
    ensures ParseHexByte(prefix + (seq(k, _ => '0') + UpperHexText(b))) == Ok(b)
  {
    var zeros := seq(k, _ => '0');
    ParseNatText(b, 16);
    LeadingZeros(k, NatText(b, 16), 16);
    HexPrefixed(prefix, zeros + NatText(b, 16));
    ParseUpperHexText(b);
    LeadingZeros(k, UpperHexText(b), 16);
    HexPrefixed(prefix, zeros + UpperHexText(b));
  }

  /** Values above 0xFF are refused, in either notation. */
  lemma ParseHexByteRejectsWide(v: nat, prefix: string)
    requires v > 0xFF
    requires prefix == "0x" || prefix == "0X"
    ensures ParseHexByte(NatText(v, 10)).Err?
    ensures ParseHexByte(prefix + NatText(v, 16)).Err?
  {
    ParseNatText(v, 10);
    DecimalTextIsNotHexPrefixed(v);
    ParseNatText(v, 16);
    HexPrefixed(prefix, NatText(v, 16));
  }

  /** A trailing character that is not a digit of the base the text is read
      in is never consumed, so the whole text is refused: "12a" fails as
      decimal, "0x1g" as hexadecimal. */
  lemma ParseHexByteRejectsTrailing(s: string, c: char)
    requires DigitValue(c, if IsHexPrefixed(s + [c]) then 16 else 10).None?
    ensures ParseHexByte(s + [c]).Err?
  {
    var t := s + [c];
    if IsHexPrefixed(t) {
      if |t[2..]| > 0 {
        assert t[2..][|t[2..]| - 1] == c;
      }
    } else {
      assert t[|t| - 1] == c;
    }
  }

  /** The resolved configuration. */
  datatype Config = Config(
    openLux: real,
    closeLux: real,
    intervalMs: int32,
    i2cDev: string,
    i2cAddr: byte,
    gpioChip: string,
    gpioLine: uint32,
    activeHigh: bool)

  const Defaults: Config := Config(30.0, 10.0, 200, "/dev/i2c-1", 0x23, "gpiochip0", 17, true)

  /** The standard-library number conversions (`stod`, `stoi`, `stoul`), given
      as parameters: each yields a value or reports that it threw. */
  datatype NumberParsers = NumberParsers(
    toDouble: string -> Option<real>,
    toInt: string -> Option<int32>,
    toULong: string -> Option<uint64>)

  /** The options that consume the next argument as their value. */
  const ValueOptions: set<string> :=
    {"--open", "--close", "--interval-ms", "--i2c-dev", "--i2c-addr", "--gpio-chip", "--gpio-line"}

  /** Every option the loop recognises. */
  const KnownOptions: set<string> := ValueOptions + {"--active-low", "--help", "-h"}

  /** Store the value of one value-taking option: each option succeeds
      exactly when its conversion does, and then changes only its own field. */
  function SetOption(cfg: Config, name: string, value: string, p: NumberParsers): (r: Result<Config, CliError>)
    requires name in ValueOptions
    ensures r.Err? ==> r.error == BadNumber(value) || r.error == BadByte(value)
    ensures name == "--open" ==>
      && (r.Ok? <==> p.toDouble(value).Some?)
      && (r.Ok? ==> r.value == cfg.(openLux := p.toDouble(value).value))
    ensures name == "--close" ==>
      && (r.Ok? <==> p.toDouble(value).Some?)
      && (r.Ok? ==> r.value == cfg.(closeLux := p.toDouble(value).value))
    ensures name == "--interval-ms" ==>
      && (r.Ok? <==> p.toInt(value).Some?)
      && (r.Ok? ==> r.value == cfg.(intervalMs := p.toInt(value).value))
    ensures name == "--i2c-dev" ==> r == Ok(cfg.(i2cDev := value))
    ensures name == "--i2c-addr" ==>
      && (r.Ok? <==> ParseHexByte(value).Ok?)
      && (r.Ok? ==> r.value == cfg.(i2cAddr := ParseHexByte(value).value))
    ensures name == "--gpio-chip" ==> r == Ok(cfg.(gpioChip := value))
    ensures name == "--gpio-line" ==>
      && (r.Ok? <==> p.toULong(value).Some?)
      && (r.Ok? ==> r.value == cfg.(gpioLine := p.toULong(value).value % 0x1_0000_0000))
  {
    if name == "--open" then
      match p.toDouble(value)
      case Some(x) => Ok(cfg.(openLux := x))
      case None => Err(BadNumber(value))
    else if name == "--close" then
      match p.toDouble(value)
      case Some(x) => Ok(cfg.(closeLux := x))
      case None => Err(BadNumber(value))
    else if name == "--interval-ms" then
      match p.toInt(value)
      case Some(x) => Ok(cfg.(intervalMs := x))
      case None => Err(BadNumber(value))
    else if name == "--i2c-dev" then
      Ok(cfg.(i2cDev := value))
    else if name == "--i2c-addr" then
      match ParseHexByte(value)
      case Ok(b) => Ok(cfg.(i2cAddr := b))
      case Err(e) => Err(e)
    else if name == "--gpio-chip" then
      Ok(cfg.(gpioChip := value))
    else
      // static_cast<unsigned int> keeps the low 32 bits of the unsigned long.
      match p.toULong(value)
      case Some(x) => Ok(cfg.(gpioLine := x % 0x1_0000_0000))
      case None => Err(BadNumber(value))
  }

  /** A value option overwrites its field whatever it held before. */
  lemma SetOptionOverwrites(cfg: Config, name: string, v1: string, v2: string, p: NumberParsers)
    requires name in ValueOptions
    requires SetOption(cfg, name, v1, p).Ok?
    ensures SetOption(SetOption(cfg, name, v1, p).value, name, v2, p) == SetOption(cfg, name, v2, p)
  {
  }

  datatype Parsed = Help | Proceed(config: Config)

  /** The option loop over the arguments after the program name. */
  function ParseOptions(args: seq<string>, cfg: Config, p: NumberParsers): (r: Result<Parsed, CliError>)
    ensures r.Err? && r.error.MissingValue? ==> r.error.option in ValueOptions
    ensures r.Err? && r.error.UnknownOption? ==> r.error.option !in KnownOptions
    ensures r.Err? ==> !r.error.CloseAboveOpen? && !r.error.NonPositiveInterval?
    decreases |args|
  {
    if |args| == 0 then Ok(Proceed(cfg))
    else
      var a := args[0];
      if a in ValueOptions then
        if |args| < 2 then Err(MissingValue(a))
        else match SetOption(cfg, a, args[1], p)
          case Ok(next) => ParseOptions(args[2..], next, p)
          case Err(e) => Err(e)
      else if a == "--active-low" then ParseOptions(args[1..], cfg.(activeHigh := false), p)
      else if a == "--help" || a == "-h" then Ok(Help)
      else Err(UnknownOption(a))
  }

  /** Parsing is a left-to-right fold: once a prefix parses to a
      configuration, the rest continues from that configuration; once a
      prefix asks for help, nothing after it is looked at. */
  lemma {:induction false} ParseOptionsAppend(xs: seq<string>, ys: seq<string>, cfg: Config, p: NumberParsers)
    requires ParseOptions(xs, cfg, p).Ok?
    ensures ParseOptions(xs, cfg, p).value.Proceed? ==>
      ParseOptions(xs + ys, cfg, p) == ParseOptions(ys, ParseOptions(xs, cfg, p).value.config, p)
    ensures ParseOptions(xs, cfg, p).value.Help? ==> ParseOptions(xs + ys, cfg, p) == Ok(Help)
    decreases |xs|
  {
    if |xs| == 0 {
      assert xs + ys == ys;
    } else {
      var a := xs[0];
      if a in ValueOptions {
        assert (xs + ys)[2..] == xs[2..] + ys;
        ParseOptionsAppend(xs[2..], ys, SetOption(cfg, a, xs[1], p).value, p);
      } else if a == "--active-low" {
        assert (xs + ys)[1..] == xs[1..] + ys;
        ParseOptionsAppend(xs[1..], ys, cfg.(activeHigh := false), p);
      }
    }
  }

  /** What the program does after reading its arguments. */
  datatype Decision = ShowUsage | Reject(error: CliError) | Launch(config: Config)

  /** The process exit code of a start-up that ends the program. */
  function ExitCode(s: Decision): (code: Option<int>)
    ensures code == Some(0) <==> s.ShowUsage?
    ensures code == Some(2) <==> s.Reject?
    ensures code == None <==> s.Launch?
  {
    match s
    case ShowUsage => Some(0)
    case Reject(_) => Some(2)
    case Launch(_) => None
  }

  /** The option loop from the defaults, then the two consistency checks. */
  function Startup(args: seq<string>, p: NumberParsers): (r: Decision)
    ensures r.Launch? ==> r.config.closeLux <= r.config.openLux && r.config.intervalMs > 0
    ensures var parsed := ParseOptions(args, Defaults, p);
      r.Launch? <==> (parsed.Ok? && parsed.value.Proceed?
                      && parsed.value.config.closeLux <= parsed.value.config.openLux
                      && parsed.value.config.intervalMs > 0)
    ensures r.Launch? ==> ParseOptions(args, Defaults, p) == Ok(Proceed(r.config))
    ensures r.ShowUsage? <==> ParseOptions(args, Defaults, p) == Ok(Help)
  {
    match ParseOptions(args, Defaults, p)
    case Err(e) => Reject(e)
    case Ok(Help) => ShowUsage
    case Ok(Proceed(cfg)) =>
      if cfg.closeLux > cfg.openLux then Reject(CloseAboveOpen)
      else if cfg.intervalMs <= 0 then Reject(NonPositiveInterval)
      else Launch(cfg)
  }

  /** Without arguments the program starts with the documented defaults. */
  lemma NoArguments(p: NumberParsers)
    ensures Startup([], p) == Launch(Defaults)
    ensures Defaults.openLux == 30.0 && Defaults.closeLux == 10.0 && Defaults.intervalMs == 200
    ensures Defaults.i2cDev == "/dev/i2c-1" && Defaults.i2cAddr == 0x23
    ensures Defaults.gpioChip == "gpiochip0" && Defaults.gpioLine == 17 && Defaults.activeHigh
  {
  }

  /** `--help` or `-h` ends the program with code 0 as soon as it is reached:
      later arguments are not read and the configuration is not checked. */
  lemma HelpShortCircuits(xs: seq<string>, h: string, rest: seq<string>, p: NumberParsers)
    requires h == "--help" || h == "-h"
    requires ParseOptions(xs, Defaults, p).Ok?
    ensures Startup(xs + [h] + rest, p) == ShowUsage
    ensures ExitCode(Startup(xs + [h] + rest, p)) == Some(0)
  {
    ParseOptionsAppend(xs, [h] + rest, Defaults, p);
    assert xs + [h] + rest == xs + ([h] + rest);
  }

  /** A value option given as the last argument is refused with code 2. */
  lemma MissingValueRejected(xs: seq<string>, name: string, p: NumberParsers)
    requires name in ValueOptions
    requires ParseOptions(xs, Defaults, p).Ok? && ParseOptions(xs, Defaults, p).value.Proceed?
    ensures Startup(xs + [name], p) == Reject(MissingValue(name))
    ensures ExitCode(Startup(xs + [name], p)) == Some(2)
  {
    ParseOptionsAppend(xs, [name], Defaults, p);
  }

  /** An unrecognised argument is refused with code 2, whatever follows it. */
  lemma UnknownOptionRejected(xs: seq<string>, a: string, rest: seq<string>, p: NumberParsers)
    requires a !in KnownOptions
    requires ParseOptions(xs, Defaults, p).Ok? && ParseOptions(xs, Defaults, p).value.Proceed?
    ensures Startup(xs + [a] + rest, p) == Reject(UnknownOption(a))
    ensures ExitCode(Startup(xs + [a] + rest, p)) == Some(2)
  {
    ParseOptionsAppend(xs, [a] + rest, Defaults, p);
    assert xs + [a] + rest == xs + ([a] + rest);
  }

  /** A configuration whose close threshold exceeds its open threshold, or
      whose interval is not positive, is refused with code 2. */
  lemma InvalidConfigRejected(args: seq<string>, p: NumberParsers)
    requires ParseOptions(args, Defaults, p).Ok? && ParseOptions(args, Defaults, p).value.Proceed?
    ensures var cfg := ParseOptions(args, Defaults, p).value.config;
      && (cfg.closeLux > cfg.openLux ==> Startup(args, p) == Reject(CloseAboveOpen))
      && (cfg.closeLux <= cfg.openLux && cfg.intervalMs <= 0 ==> Startup(args, p) == Reject(NonPositiveInterval))
      && (cfg.closeLux > cfg.openLux || cfg.intervalMs <= 0 ==> ExitCode(Startup(args, p)) == Some(2))
  {
  }

  /** Arguments that the loop consumes as whole options, none of them `name`,
      `--help` or an unknown one: every value option here has its value. */
  predicate Untouched(ys: seq<string>, name: string)
    decreases |ys|
  {
    if |ys| == 0 then true
    else if ys[0] in ValueOptions then |ys| >= 2 && ys[0] != name && Untouched(ys[2..], name)
    else ys[0] == "--active-low" && Untouched(ys[1..], name)
  }

  /** Two different value options store into different fields, so they can be
      given in either order; whether a store fails depends on its value alone. */
  lemma SetOptionsCommute(cfg: Config, a: string, va: string, b: string, vb: string, p: NumberParsers)
    requires a in ValueOptions && b in ValueOptions && a != b
    requires SetOption(cfg, a, va, p).Ok?
    ensures SetOption(cfg, b, vb, p).Err? ==>
      SetOption(SetOption(cfg, a, va, p).value, b, vb, p) == SetOption(cfg, b, vb, p)
    ensures SetOption(cfg, b, vb, p).Ok? ==>
      && SetOption(SetOption(cfg, b, vb, p).value, a, va, p).Ok?
      && SetOption(SetOption(cfg, a, va, p).value, b, vb, p) == SetOption(SetOption(cfg, b, vb, p).value, a, va, p)
  {
  }

  /** Storing `name` before arguments that never mention it is the same as
      storing it after them: those arguments leave its field alone, and the
      next `name` overwrites it. */
  lemma {:induction false} UntouchedCommutes(ys: seq<string>, name: string, v1: string, v2: string,
                                             rest: seq<string>, cfg: Config, p: NumberParsers)
    requires name in ValueOptions && Untouched(ys, name)
    requires SetOption(cfg, name, v1, p).Ok?
    ensures ParseOptions(ys + [name, v2] + rest, SetOption(cfg, name, v1, p).value, p)
         == ParseOptions(ys + [name, v2] + rest, cfg, p)
    decreases |ys|
  {
    var once := SetOption(cfg, name, v1, p).value;
    var tail := ys + [name, v2] + rest;
    if |ys| == 0 {
      assert tail == [name, v2] + rest;
      assert tail[2..] == rest;
      SetOptionOverwrites(cfg, name, v1, v2, p);
    } else if ys[0] in ValueOptions {
      var a := ys[0];
      assert tail[0] == a && tail[1] == ys[1];
      assert tail[2..] == ys[2..] + [name, v2] + rest;
      SetOptionsCommute(cfg, name, v1, a, ys[1], p);
      if SetOption(cfg, a, ys[1], p).Ok? {
        UntouchedCommutes(ys[2..], name, v1, v2, rest, SetOption(cfg, a, ys[1], p).value, p);
      }
    } else {
      assert tail[0] == "--active-low";
      assert tail[1..] == ys[1..] + [name, v2] + rest;
      assert once.(activeHigh := false) == SetOption(cfg.(activeHigh := false), name, v1, p).value;
      UntouchedCommutes(ys[1..], name, v1, v2, rest, cfg.(activeHigh := false), p);
    }
  }

  /** When an option is repeated, the last value given wins: an earlier
      occurrence that parsed has no effect, whatever other options stand
      between the two. */
  lemma RepeatedOptionLastWins(xs: seq<string>, name: string, v1: string, ys: seq<string>, v2: string,
                               rest: seq<string>, cfg: Config, p: NumberParsers)
    requires name in ValueOptions && Untouched(ys, name)
    requires ParseOptions(xs, cfg, p).Ok? && ParseOptions(xs, cfg, p).value.Proceed?
    requires SetOption(ParseOptions(xs, cfg, p).value.config, name, v1, p).Ok?
    ensures ParseOptions(xs + [name, v1] + ys + [name, v2] + rest, cfg, p)
         == ParseOptions(xs + ys + [name, v2] + rest, cfg, p)
  {
    var c := ParseOptions(xs, cfg, p).value.config;
    var tail := ys + [name, v2] + rest;
    assert xs + [name, v1] + ys + [name, v2] + rest == xs + ([name, v1] + tail);
    assert xs + ys + [name, v2] + rest == xs + tail;
    ParseOptionsAppend(xs, [name, v1] + tail, cfg, p);
    ParseOptionsAppend(xs, tail, cfg, p);
    assert ([name, v1] + tail)[2..] == tail;
    UntouchedCommutes(ys, name, v1, v2, rest, c, p);
  }

  /** `--active-low` switches the polarity and changes nothing else. */
  lemma ActiveLowFlag(xs: seq<string>, ys: seq<string>, p: NumberParsers)
    requires ParseOptions(xs, Defaults, p).Ok? && ParseOptions(xs, Defaults, p).value.Proceed?
    ensures var cfg := ParseOptions(xs, Defaults, p).value.config;
      ParseOptions(xs + ["--active-low"] + ys, Defaults, p) == ParseOptions(ys, cfg.(activeHigh := false), p)
  {
    ParseOptionsAppend(xs, ["--active-low"] + ys, Defaults, p);
    assert xs + ["--active-low"] + ys == xs + (["--active-low"] + ys);
    assert (["--active-low"] + ys)[1..] == ys;
  }
}
