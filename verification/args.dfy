/**
 * `process_args` in its two copies. The library's accepts `--help`; the
 * binary's does not. The arguments after the program name and the
 * `Path::is_dir` test are parameters.
 */
module Args {
  import opened Wrappers
  import opened Types

  /** Which copy of `process_args`: the library's (`--help` allowed) or the binary's. */
  datatype Variant = Library | Binary

  datatype ProgramOption = BaseDir(path: string) | Port(port: u16) | PrintHelp

  datatype ArgError = InvalidOption(arg: string) | InvalidOptionsStructure

  /** The port the server binds when no `--port` is given. */
  const DEFAULT_PORT: u16 := 65421

  const PORT_PREFIX: string := "--port="

  predicate IsDigit(c: char)
  {
    '0' <= c <= '9'
  }

  predicate AllDigits(s: string)
  {
    forall i :: 0 <= i < |s| ==> IsDigit(s[i])
  }

  function DigitChar(d: nat): (c: char)
    requires d < 10
    ensures IsDigit(c) && c as int - '0' as int == d
  {
    ('0' as int + d) as char
  }

  /** The number a string of decimal digits denotes, most significant digit first. */
  function DecimalValue(ds: string): nat
    requires AllDigits(ds)
    decreases |ds|
  {
    if ds == [] then 0
    else DecimalValue(ds[..|ds| - 1]) * 10 + (ds[|ds| - 1] as int - '0' as int)
  }

  /** The shortest decimal representation of `n`. */
  function ToDecimal(n: nat): (s: string)
    ensures AllDigits(s) && |s| >= 1
    decreases n
  {
    if n < 10 then [DigitChar(n)] else ToDecimal(n / 10) + [DigitChar(n % 10)]
  }

  lemma {:induction false} DecimalRoundTrip(n: nat)
    ensures DecimalValue(ToDecimal(n)) == n
    decreases n
  {
    if n >= 10 {
      DecimalRoundTrip(n / 10);
      var s := ToDecimal(n);
      assert s[..|s| - 1] == ToDecimal(n / 10);
    }
  }

  /** Leading zeros do not change the value. */
  lemma {:induction false} LeadingZero(ds: string)
    requires AllDigits(ds)
    ensures AllDigits("0" + ds) && DecimalValue("0" + ds) == DecimalValue(ds)
    decreases |ds|
  {
    var s := "0" + ds;
    assert forall i :: 0 <= i < |s| ==> s[i] == (if i == 0 then '0' else ds[i - 1]);
    if ds != [] {
      var init := ds[..|ds| - 1];
      LeadingZero(init);
      assert s[..|s| - 1] == "0" + init;
    }
  }

  /**
   * `str::parse::<u16>`: an optional leading `+`, then one or more decimal
   * digits (leading zeros allowed) denoting at most 65535. A `-` sign, a
   * lone sign, an empty string and any other character are errors.
   */
  function ParseU16(s: string): (r: Option<u16>)
    ensures r.Some? ==> |s| >= 1 && IsDigit(s[|s| - 1])
    ensures r.Some? && s[0] != '+' ==> AllDigits(s) && DecimalValue(s) == r.value as int
    ensures r.Some? && s[0] == '+' ==> AllDigits(s[1..]) && DecimalValue(s[1..]) == r.value as int
    ensures var digits := if |s| > 0 && s[0] == '+' then s[1..] else s;
      |digits| > 0 && AllDigits(digits) && DecimalValue(digits) <= 0xFFFF ==> r == Some(DecimalValue(digits) as u16)
  {
    var digits := if |s| > 0 && s[0] == '+' then s[1..] else s;
    if |digits| == 0 || !AllDigits(digits) then None
    else if DecimalValue(digits) > 0xFFFF then None
    else Some(DecimalValue(digits) as u16)
  }

  /** Every port number parses back from its decimal form, with or without a `+`; larger numbers do not. */
  lemma ParseU16RoundTrip(n: nat)
    ensures n < 0x1_0000 ==> ParseU16(ToDecimal(n)) == Some(n as u16)
    ensures n < 0x1_0000 ==> ParseU16("+" + ToDecimal(n)) == Some(n as u16)
    ensures n >= 0x1_0000 ==> ParseU16(ToDecimal(n)) == None
  {
    DecimalRoundTrip(n);
    var s := ToDecimal(n);
    assert IsDigit(s[0]);
    assert ("+" + s)[1..] == s;
  }

  /** `k` zero digits. */
  function Zeros(k: nat): (z: string)
    ensures |z| == k && forall i :: 0 <= i < k ==> z[i] == '0'
  {
    seq(k, _ => '0')
  }

  /** Any number of leading zeros leaves the value unchanged. */
  lemma {:induction false} LeadingZeros(k: nat, ds: string)
    requires AllDigits(ds)
    ensures AllDigits(Zeros(k) + ds) && DecimalValue(Zeros(k) + ds) == DecimalValue(ds)
    decreases k
  {
    if k == 0 {
      assert Zeros(k) + ds == ds;
    } else {
      LeadingZeros(k - 1, ds);
      assert Zeros(k) + ds == "0" + (Zeros(k - 1) + ds);
      LeadingZero(Zeros(k - 1) + ds);
    }
  }

  /**
   * Non-canonical forms are accepted: a port number written with any number
   * of leading zeros, with or without a `+`, parses to that number, so
   * "080" and "+00080" both give 80.
   */
  lemma ParseU16Padded(k: nat, n: nat)
    requires n < 0x1_0000
    ensures ParseU16(Zeros(k) + ToDecimal(n)) == Some(n as u16)
    ensures ParseU16("+" + Zeros(k) + ToDecimal(n)) == Some(n as u16)
  {
    DecimalRoundTrip(n);
    LeadingZeros(k, ToDecimal(n));
    var d := Zeros(k) + ToDecimal(n);
    assert "+" + Zeros(k) + ToDecimal(n) == "+" + d;
    ParseDigits(d);
  }

  /** A string of digits denoting at most 65535 parses to its value, with or without a `+`. */
  lemma ParseDigits(d: string)
    requires |d| > 0 && AllDigits(d) && DecimalValue(d) <= 0xFFFF
    ensures ParseU16(d) == Some(DecimalValue(d) as u16)
    ensures ParseU16("+" + d) == Some(DecimalValue(d) as u16)
  {
    assert IsDigit(d[0]);
    assert ("+" + d)[0] == '+' && ("+" + d)[1..] == d;
  }

  /** `str::split_once(c)`: the parts before and after the first `c`. */
  function SplitOnce(s: string, c: char): (r: Option<(string, string)>)
    ensures r.None? <==> c !in s
    ensures r.Some? ==> s == r.value.0 + [c] + r.value.1 && c !in r.value.0
  {
    if |s| == 0 then None
    else if s[0] == c then Some(([], s[1..]))
    else match SplitOnce(s[1..], c)
      case None => None
      case Some(parts) => Some(([s[0]] + parts.0, parts.1))
  }

  predicate StartsWith(s: string, prefix: string)
  {
    |s| >= |prefix| && s[..|prefix|] == prefix
  }

  /**
   * One non-final argument: `--help` (library only), `--port=N`, or an
   * error naming the argument. The port is what follows the first `=`, so
   * `--port==80` is invalid.
   */
  function ParseOption(variant: Variant, arg: string): (r: Result<ProgramOption, ArgError>)
    ensures r.Failure? ==> r.error == InvalidOption(arg)
    ensures r.Success? ==> !r.value.BaseDir?
    ensures r == Success(PrintHelp) <==> variant == Library && arg == "--help"
    ensures r.Success? && r.value.Port? <==> StartsWith(arg, PORT_PREFIX) && ParseU16(arg[|PORT_PREFIX|..]).Some?
    ensures r.Success? && r.value.Port? ==> r.value.port == ParseU16(arg[|PORT_PREFIX|..]).value
  {
    if variant == Library && arg == "--help" then Success(PrintHelp)
    else if StartsWith(arg, PORT_PREFIX) then
      assert arg == "--port" + ['='] + arg[|PORT_PREFIX|..];
      SplitAtFirst("--port", '=', arg[|PORT_PREFIX|..]);
      match SplitOnce(arg, '=')
      case Some((_, value)) =>
        (match ParseU16(value)
         case Some(port) => Success(Port(port))
         case None => Failure(InvalidOption(arg)))
      case None => Failure(InvalidOption(arg))
    else Failure(InvalidOption(arg))
  }

  /** Splitting at the first `c` of `a + [c] + b`, where `a` has no `c`, gives back `a` and `b`. */
  lemma {:induction false} SplitAtFirst(a: string, c: char, b: string)
    requires c !in a
    ensures SplitOnce(a + [c] + b, c) == Some((a, b))
    decreases |a|
  {
    var s := a + [c] + b;
    if a == [] {
      assert s[0] == c && s[1..] == b;
    } else {
      assert s[1..] == a[1..] + [c] + b;
      SplitAtFirst(a[1..], c, b);
      assert [a[0]] + a[1..] == a;
    }
  }

  /**
   * The `for arg in args` loop: every argument parsed in order, the first
   * error returned as it is (`arg?`).
   */
  function ParseAll(variant: Variant, args: seq<string>): (r: Result<seq<ProgramOption>, ArgError>)
    ensures r.Success? <==> forall i :: 0 <= i < |args| ==> ParseOption(variant, args[i]).Success?
    ensures r.Success? ==>
      (|r.value| == |args| && forall i :: 0 <= i < |args| ==> r.value[i] == ParseOption(variant, args[i]).value)
    ensures r.Failure? ==>
      exists i :: (0 <= i < |args| && r.error == InvalidOption(args[i])
        && ParseOption(variant, args[i]).Failure?
        && forall j :: 0 <= j < i ==> ParseOption(variant, args[j]).Success?)
  {
    if args == [] then Success([])
    else
      match ParseOption(variant, args[0])
      case Failure(e) => Failure(e)
      case Success(o) =>
        match ParseAll(variant, args[1..])
        case Failure(e) =>
          var i :| 0 <= i < |args[1..]| && e == InvalidOption(args[1..][i])
            && ParseOption(variant, args[1..][i]).Failure?
            && forall j :: 0 <= j < i ==> ParseOption(variant, args[1..][j]).Success?;
          assert args[1..][i] == args[i + 1];
          assert forall j :: 1 <= j < i + 1 ==> args[j] == args[1..][j - 1];
          Failure(e)
        case Success(os) =>
          assert forall i :: 1 <= i < |args| ==> args[i] == args[1..][i - 1];
          Success([o] + os)
  }

  /**
   * `process_args`. No arguments is a structural error. The last argument is
   * the base directory, which must exist as a directory, and comes first in
   * the options; in the library a final `--help` is instead parsed with the
   * rest. Every other argument must parse as an option.
   */
  function ProcessArgs(variant: Variant, args: seq<string>, isDir: string -> bool): (r: Result<seq<ProgramOption>, ArgError>)
    ensures args == [] ==> r == Failure(InvalidOptionsStructure)
    ensures r.Failure? && r.error.InvalidOption? ==> r.error.arg in args
    ensures r == Failure(InvalidOptionsStructure) <==>
      args == [] || (!(variant == Library && Last(args) == "--help") && !isDir(Last(args)))
    ensures r.Success? ==> |r.value| == |args|
    ensures r.Success? && !(variant == Library && Last(args) == "--help") ==>
      r.value[0] == BaseDir(Last(args)) && forall i :: 1 <= i < |r.value| ==> !r.value[i].BaseDir?
    ensures r.Success? && variant == Library && Last(args) == "--help" ==>
      Last(r.value) == PrintHelp && forall i :: 0 <= i < |r.value| ==> !r.value[i].BaseDir?
    ensures r.Success? && !(variant == Library && Last(args) == "--help") ==>
      ParseAll(variant, args[..|args| - 1]) == Success(r.value[1..])
    ensures r.Success? && variant == Library && Last(args) == "--help" ==> ParseAll(variant, args) == r
    ensures r.Failure? && r.error.InvalidOption? ==>
      ParseAll(variant, if variant == Library && Last(args) == "--help" then args else args[..|args| - 1]) == r
  {
    if args == [] then Failure(InvalidOptionsStructure)
    else
      var last := Last(args);
      var init := args[..|args| - 1];
      if variant == Library && last == "--help" then
        assert init + [last] == args;
        ParseAll(variant, init + [last])
      else if !isDir(last) then Failure(InvalidOptionsStructure)
      else
        match ParseAll(variant, init)
        case Failure(e) => Failure(e)
        case Success(os) => Success([BaseDir(last)] + os)
  }

  /** `--port==80` is rejected: the port text after the first `=` is `=80`. */
  lemma DoubleEqualsRejected(variant: Variant)
    ensures ParseOption(variant, "--port==80") == Failure(InvalidOption("--port==80"))
  {
    var arg := "--port==80";
    assert StartsWith(arg, PORT_PREFIX);
    assert arg[|PORT_PREFIX|..] == "=80";
    assert !IsDigit('=');
    assert ParseU16("=80") == None;
  }

  /**
   * The binary has no `--help`: before the last argument it is an invalid
   * option, and as the last argument it is accepted only as the name of an
   * existing directory.
   */
  lemma BinaryRejectsHelp(args: seq<string>, isDir: string -> bool)
    requires "--help" in args
    ensures ParseOption(Binary, "--help") == Failure(InvalidOption("--help"))
    ensures ("--help" in args[..|args| - 1] || !isDir("--help")) ==> ProcessArgs(Binary, args, isDir).Failure?
    ensures (ProcessArgs(Binary, args, isDir).Success? ==>
      Last(args) == "--help" && ProcessArgs(Binary, args, isDir).value[0] == BaseDir("--help"))
  {
    assert !StartsWith("--help", PORT_PREFIX);
    var i :| 0 <= i < |args| && args[i] == "--help";
    if i < |args| - 1 {
      assert args[..|args| - 1][i] == "--help";
    } else if "--help" in args[..|args| - 1] {
      var j :| 0 <= j < |args| - 1 && args[..|args| - 1][j] == "--help";
    }
  }

  function Last<T>(s: seq<T>): T
    requires |s| > 0
  {
    s[|s| - 1]
  }
}
