/**
  The names `main` derives before it starts the first child: the program's
  base name from the command operand, the service name, and the status
  file's name `/tmp/<service>.<pid>.status`, written with snprintf into a
  PATH_MAX buffer.
 */
module Naming {

  datatype Option<T> = None | Some(value: T)

  /**
    PATH_MAX of <limits.h> on Linux: the size of the status-file name buffer.
    A `char` of a string here stands for one C `char`, that is one byte, so
    lengths are byte counts as snprintf counts them.
   */
  const PATH_MAX: nat := 4096

  /** strrchr: the index of the last occurrence of `c` in `s`, if any. */
  function LastIndex(s: string, c: char): (r: Option<nat>)
    ensures r.None? ==> c !in s
    ensures r.Some? ==> r.value < |s| && s[r.value] == c && c !in s[r.value + 1..]
    decreases |s|
  {
    if s == [] then None
    else if s[|s| - 1] == c then Some(|s| - 1)
    else
      var r := LastIndex(s[..|s| - 1], c);
      assert s == s[..|s| - 1] + [s[|s| - 1]];
      r
  }

  /** The last occurrence of `c` in `a + [c] + b` is the one between them when `b` has none. */
  lemma LastIndexOfJoin(a: string, c: char, b: string)
    requires c !in b
    ensures LastIndex(a + [c] + b, c) == Some(|a|)
  {
    var s := a + [c] + b;
    assert s[|a|] == c;
    assert s[|a| + 1..] == b;
  }

  /**
    The program's base name: what follows the last '/' of the command, or
    the whole command when it has no '/'. The three facts below pin it down:
    a slash-free suffix that is the whole string or follows a '/'.
   */
  function BaseName(path: string): (r: string)
    ensures '/' !in r
    ensures |r| <= |path| && r == path[|path| - |r|..]
    ensures |r| < |path| ==> path[|path| - |r| - 1] == '/'
    ensures '/' !in path ==> r == path
  {
    match LastIndex(path, '/')
    case None => path
    case Some(i) => path[i + 1..]
  }

  predicate IsDigit(c: char) {
    '0' <= c <= '9'
  }

  predicate AllDigits(s: string) {
    forall i :: 0 <= i < |s| ==> IsDigit(s[i])
  }

  function DigitChar(d: nat): (c: char)
    requires d < 10
    ensures IsDigit(c)
  {
    ('0' as int + d) as char
  }

  function DigitValue(c: char): (d: nat)
    requires IsDigit(c)
    ensures d < 10 && DigitChar(d) == c
  {
    c as int - '0' as int
  }

  /**
    printf's `%d` of a non-negative number: a non-empty string of digits
    that starts with '0' only when it is "0" itself.
   */
  function Decimal(n: nat): (r: string)
    ensures r != [] && AllDigits(r)
    ensures r[0] == '0' <==> n == 0
    ensures |r| > 1 ==> r[0] != '0'
    decreases n
  {
    if n < 10 then [DigitChar(n)] else Decimal(n / 10) + [DigitChar(n % 10)]
  }

  /** The number a string of decimal digits denotes. */
  function ParseDecimal(s: string): nat
    requires AllDigits(s)
    decreases |s|
  {
    if s == [] then 0 else ParseDecimal(s[..|s| - 1]) * 10 + DigitValue(s[|s| - 1])
  }

  lemma {:induction false} DecimalRoundTrip(n: nat)
    ensures ParseDecimal(Decimal(n)) == n
    decreases n
  {
    if n >= 10 {
      var p := Decimal(n / 10);
      var s := Decimal(n);
      assert s[..|s| - 1] == p;
      DecimalRoundTrip(n / 10);
    }
  }

  const StatusDir := "/tmp/"
  const StatusSuffix := ".status"

  /** The status file's name before snprintf's truncation. */
  function FullStatusFileName(service: string, pid: nat): string {
    StatusDir + service + "." + Decimal(pid) + StatusSuffix
  }

  /**
    The status file's name as snprintf leaves it in a PATH_MAX buffer: the
    full name when it fits, otherwise its first PATH_MAX - 1 characters.
   */
  function StatusFileName(service: string, pid: nat): (r: string)
    ensures |r| < PATH_MAX && |r| <= |FullStatusFileName(service, pid)|
    ensures r == FullStatusFileName(service, pid)[..|r|]
    ensures |FullStatusFileName(service, pid)| < PATH_MAX ==> r == FullStatusFileName(service, pid)
    ensures |FullStatusFileName(service, pid)| >= PATH_MAX ==> |r| == PATH_MAX - 1
  {
    var full := FullStatusFileName(service, pid);
    if |full| < PATH_MAX then full else full[..PATH_MAX - 1]
  }

  datatype StatusFileId = StatusFileId(service: string, pid: nat)

  /** Splits `<service>.<digits>` at its last '.'. */
  function ParseServiceAndPid(middle: string): Option<StatusFileId> {
    match LastIndex(middle, '.')
    case None => None
    case Some(k) =>
      var digits := middle[k + 1..];
      if digits != [] && AllDigits(digits) then Some(StatusFileId(middle[..k], ParseDecimal(digits)))
      else None
  }

  /**
    Reads a status file's name back: strip the directory and the suffix,
    then split at the last '.', which cannot lie inside the pid's digits.
   */
  function ParseStatusFileName(f: string): Option<StatusFileId> {
    if |f| < |StatusDir| + |StatusSuffix| then None
    else if f[..|StatusDir|] != StatusDir || f[|f| - |StatusSuffix|..] != StatusSuffix then None
    else ParseServiceAndPid(f[|StatusDir|..|f| - |StatusSuffix|])
  }

  lemma SplitAround(p: string, m: string, q: string)
    ensures var f := p + m + q;
      f[..|p|] == p && f[|f| - |q|..] == q && f[|p|..|f| - |q|] == m
  {
  }

  lemma {:induction false} ServiceAndPidRoundTrip(service: string, pid: nat)
    ensures ParseServiceAndPid(service + ['.'] + Decimal(pid)) == Some(StatusFileId(service, pid))
  {
    var d := Decimal(pid);
    var middle := service + ['.'] + d;
    assert '.' !in d;
    LastIndexOfJoin(service, '.', d);
    assert middle[|service| + 1..] == d;
    assert middle[..|service|] == service;
    DecimalRoundTrip(pid);
  }

  /** A status file name that fits its buffer names its service and monitor pid. */
  lemma StatusFileNameRoundTrip(service: string, pid: nat)
    requires |FullStatusFileName(service, pid)| < PATH_MAX
    ensures ParseStatusFileName(StatusFileName(service, pid)) == Some(StatusFileId(service, pid))
  {
    var middle := service + ['.'] + Decimal(pid);
    var f := StatusFileName(service, pid);
    assert f == StatusDir + middle + StatusSuffix;
    SplitAround(StatusDir, middle, StatusSuffix);
    ServiceAndPidRoundTrip(service, pid);
  }

  /** Monitors with different pids, or different services, never share a status file. */
  lemma StatusFileNamesDistinct(service1: string, pid1: nat, service2: string, pid2: nat)
    requires |FullStatusFileName(service1, pid1)| < PATH_MAX
    requires |FullStatusFileName(service2, pid2)| < PATH_MAX
    requires service1 != service2 || pid1 != pid2
    ensures StatusFileName(service1, pid1) != StatusFileName(service2, pid2)
  {
    StatusFileNameRoundTrip(service1, pid1);
    StatusFileNameRoundTrip(service2, pid2);
  }

  /** What `main` sets up from its command line. */
  datatype Config = Config(command: seq<string>, progname: string, servicename: string, statusfile: string)

  /** Either a configuration, or the usage message followed by exit 1. */
  datatype Startup = Ready(config: Config) | Usage

  /**
    The usage check as written: the command line is refused only when
    `argc < 2`, whatever option parsing consumed.
   */
  function UsageAccepted(argv: seq<string>): bool {
    !(|argv| < 2)
  }

  /**
    A command line of options only passes that check although no command
    operand is left: `monitor -e` has argc 2 and getopt's optind 2, so the
    program's `args[0]` is the null pointer that ends argv.
   */
  lemma OptionsOnlyPassUsageCheck()
    ensures var argv := ["monitor", "-e"];
      UsageAccepted(argv) && |argv[2..]| == 0 && Configure(argv, 2, None, 1) == Usage
  {
  }

  /**
    `main`'s setup once getopt has consumed the options (`optind`, the `-n`
    value if any) and `getpid` has returned `pid`, with the usage check
    also refusing a command line that leaves no command operand.
   */
  function Configure(argv: seq<string>, optind: nat, name: Option<string>, pid: nat): (r: Startup)
    requires optind <= |argv|
    ensures r == Usage <==> |argv| < 2 || optind == |argv|
    ensures r.Ready? ==> r.config.command == argv[optind..] && r.config.command != []
    ensures r.Ready? ==> r.config.progname == BaseName(argv[optind])
    ensures r.Ready? && name.None? ==> r.config.servicename == r.config.progname
    ensures r.Ready? && name.Some? ==> r.config.servicename == name.value
    ensures r.Ready? ==> r.config.statusfile == StatusFileName(r.config.servicename, pid)
  {
    if |argv| < 2 || optind == |argv| then Usage
    else
      var progname := BaseName(argv[optind]);
      var servicename := if name.Some? then name.value else progname;
      Ready(Config(argv[optind..], progname, servicename, StatusFileName(servicename, pid)))
  }
}
