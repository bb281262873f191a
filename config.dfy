/**
 * Process configuration (`Opt`) and the application state built from it
 * once at start-up (`App::new`): the smuggle header name and the fixed
 * destination authority `desthost:destport`.
 */
module Config {
  import opened Wrappers

  /** `u16`, the type of `--destport`. */
  type Port = n: nat | n < 0x1_0000

  /** The options the forwarder reads; `--bind` and `--verbose` only concern start-up glue. */
  datatype Opt = Opt(desthost: string, destport: Port, smuggleHeader: string)

  /** `App` without its HTTP client, which the forwarder receives as a parameter instead. */
  datatype App = App(smuggleHeader: string, authority: string)

  datatype StartupError = UnparsableAuthority

  predicate IsDigit(c: char) {
    '0' <= c <= '9'
  }

  predicate AllDigits(s: string) {
    forall i :: 0 <= i < |s| ==> IsDigit(s[i])
  }

  function DigitChar(d: nat): char
    requires d < 10
  {
    ('0' as int + d) as char
  }

  function DigitValue(c: char): nat
    requires IsDigit(c)
  {
    c as int - '0' as int
  }

  /** `format!("{}", n)` for an unsigned integer: decimal digits without leading zeros. */
  function Decimal(n: nat): (r: string)
    ensures r != [] && AllDigits(r)
    ensures r[0] == '0' ==> n == 0 && r == "0"
  {
    if n < 10 then [DigitChar(n)] else Decimal(n / 10) + [DigitChar(n % 10)]
  }

  /** Reads a string of decimal digits back as a number. */
  function ParseDecimal(s: string): nat
    requires AllDigits(s)
  {
    if s == [] then 0 else ParseDecimal(s[..|s| - 1]) * 10 + DigitValue(s[|s| - 1])
  }

  lemma {:induction false} DecimalRoundTrip(n: nat)
    ensures ParseDecimal(Decimal(n)) == n
  {
    if n >= 10 {
      var s := Decimal(n);
      assert s[..|s| - 1] == Decimal(n / 10);
      DecimalRoundTrip(n / 10);
    }
  }

  /** The destination authority text of `App::new`: `desthost ":" destport`. */
  function DestAuthority(desthost: string, destport: Port): string {
    desthost + ":" + Decimal(destport)
  }

  /**
   * The authority names the configured destination: the host is everything
   * before its last ':' and the digits after it read back as the port.
   */
  lemma AuthorityNamesDestination(desthost: string, destport: Port)
    ensures var a := DestAuthority(desthost, destport);
      && |a| > |desthost| + 1
      && a[..|desthost|] == desthost
      && a[|desthost|] == ':'
      && (forall i :: |desthost| < i < |a| ==> a[i] != ':')
      && AllDigits(a[|desthost| + 1..])
      && ParseDecimal(a[|desthost| + 1..]) == destport
  {
    var a := DestAuthority(desthost, destport);
    assert a[|desthost| + 1..] == Decimal(destport);
    DecimalRoundTrip(destport);
  }

  /**
   * `App::new`: the authority text must parse as an `Authority`, which the
   * `http` crate decides (`isAuthority` stands for that parser); otherwise
   * start-up fails.
   */
  function NewApp(opt: Opt, isAuthority: string -> bool): (r: Result<App, StartupError>)
    ensures r.Ok? <==> isAuthority(DestAuthority(opt.desthost, opt.destport))
    ensures r.Ok? ==> r.value.smuggleHeader == opt.smuggleHeader
    ensures r.Ok? ==> r.value.authority == DestAuthority(opt.desthost, opt.destport)
    ensures r.Err? ==> r.error == UnparsableAuthority
  {
    var text := DestAuthority(opt.desthost, opt.destport);
    if isAuthority(text) then Ok(App(opt.smuggleHeader, text)) else Err(UnparsableAuthority)
  }
}
