/** The command-line handling of src/main.rs: `--host <value>` and `--port <value>` read by an
    index-stepping loop over the arguments, with "0.0.0.0" and 8000 as defaults. */
module Cli {
  import opened Wrappers
  import opened Strings

  datatype Endpoint = Endpoint(host: string, port: nat)

  const DefaultPort: nat := 8000
  const DefaultEndpoint: Endpoint := Endpoint("0.0.0.0", DefaultPort)

  /** `str::parse::<u16>`: an optional '+', then one or more decimal digits whose value is
      at most 65535. */
  function ParseU16(s: string): (r: Option<nat>)
    ensures r.Some? ==> r.value < 0x10000
    ensures r.Some? <==> (var d := if StartsWith(s, "+") then s[1..] else s;
                          d != [] && AllDigits(d) && DigitsValue(d) < 0x10000)
  {
    var digits := if StartsWith(s, "+") then s[1..] else s;
    if digits != [] && AllDigits(digits) && DigitsValue(digits) < 0x10000
    then Some(DigitsValue(digits)) else None
  }

  /** A port written in decimal reads back as itself. */
  lemma ParseU16Dec(n: nat)
    requires n < 0x10000
    ensures ParseU16(Dec(n)) == Some(n)
  {
    assert !StartsWith(Dec(n), "+") by {
      assert IsDigit(Dec(n)[0]);
    }
  }

  predicate IsFlag(a: string) {
    a == "--host" || a == "--port"
  }

  /** The effect of the arguments still to be read on the endpoint found so far: a flag with
      a value after it sets its field and consumes the value; a flag in the last position
      and any other argument are skipped. A port that does not parse becomes 8000. */
  function Scan(rest: seq<string>, e: Endpoint): Endpoint
    decreases |rest|
  {
    if rest == [] then e
    else if rest[0] == "--host" && |rest| >= 2 then Scan(rest[2..], e.(host := rest[1]))
    else if rest[0] == "--port" && |rest| >= 2 then Scan(rest[2..], e.(port := ParseU16(rest[1]).GetOr(DefaultPort)))
    else Scan(rest[1..], e)
  }

  /** The endpoint the whole argument list selects; `args[0]` is the program name. */
  function Arguments(args: seq<string>): Endpoint {
    if args == [] then DefaultEndpoint else Scan(args[1..], DefaultEndpoint)
  }

  /** The argument loop of `main`. Each round moves `i` past the argument and, for a flag
      with a value, past the value too. */
  method ParseArgs(args: seq<string>) returns (e: Endpoint)
    ensures e == Arguments(args)
    ensures e.port < 0x10000
  {
    var host := "0.0.0.0";
    var port := DefaultPort;
    var i := 1;
    while i < |args|
      invariant 1 <= i <= |args| + 1
      invariant i <= |args| ==> Scan(args[i..], Endpoint(host, port)) == Arguments(args)
      invariant i > |args| ==> Endpoint(host, port) == Arguments(args)
      invariant port < 0x10000
      decreases |args| - i
    {
      if args[i] == "--host" {
        if i + 1 < |args| {
          host := args[i + 1];
          i := i + 1;
        }
      } else if args[i] == "--port" {
        if i + 1 < |args| {
          port := ParseU16(args[i + 1]).GetOr(DefaultPort);
          i := i + 1;
        }
      }
      i := i + 1;
    }
    e := Endpoint(host, port);
  }

  /** An argument list read to its end with no flag left waiting for its value. */
  predicate Complete(a: seq<string>)
    decreases |a|
  {
    if a == [] then true
    else if IsFlag(a[0]) then |a| >= 2 && Complete(a[2..])
    else Complete(a[1..])
  }

  /** After a complete list, the next arguments are read afresh. */
  lemma {:induction false} ScanAppend(a: seq<string>, b: seq<string>, e: Endpoint)
    requires Complete(a)
    ensures Scan(a + b, e) == Scan(b, Scan(a, e))
    decreases |a|
  {
    if a == [] {
      assert a + b == b;
    } else if IsFlag(a[0]) {
      assert (a + b)[2..] == a[2..] + b;
      assert (a + b)[1] == a[1];
      ScanAppend(a[2..], b, if a[0] == "--host" then e.(host := a[1]) else e.(port := ParseU16(a[1]).GetOr(DefaultPort)));
    } else {
      assert (a + b)[1..] == a[1..] + b;
      ScanAppend(a[1..], b, e);
    }
  }

  /** The last `--host v` wins. */
  lemma LastHostWins(a: seq<string>, v: string, e: Endpoint)
    requires Complete(a)
    ensures Scan(a + ["--host", v], e) == Scan(a, e).(host := v)
  {
    ScanAppend(a, ["--host", v], e);
    assert ["--host", v][2..] == [];
  }

  /** The last `--port v` wins, and a value that is not a u16 gives 8000 rather than the
      port set before. */
  lemma LastPortWins(a: seq<string>, v: string, e: Endpoint)
    requires Complete(a)
    ensures Scan(a + ["--port", v], e) == Scan(a, e).(port := ParseU16(v).GetOr(DefaultPort))
    ensures ParseU16(v).None? ==> Scan(a + ["--port", v], e).port == DefaultPort
  {
    ScanAppend(a, ["--port", v], e);
    assert ["--port", v][2..] == [];
  }

  /** A flag in the last position is ignored. */
  lemma TrailingFlagIgnored(a: seq<string>, flag: string, e: Endpoint)
    requires Complete(a) && IsFlag(flag)
    ensures Scan(a + [flag], e) == Scan(a, e)
  {
    ScanAppend(a, [flag], e);
    assert [flag][1..] == [];
  }

  /** Arguments that are not flags are skipped wherever they appear. */
  lemma {:induction false} NoFlagsNoChange(a: seq<string>, e: Endpoint)
    requires forall i :: 0 <= i < |a| ==> !IsFlag(a[i])
    ensures Scan(a, e) == e
    decreases |a|
  {
    if a != [] {
      NoFlagsNoChange(a[1..], e);
    }
  }

  /** With no flags the endpoint is 0.0.0.0:8000. */
  lemma DefaultsWithoutFlags(args: seq<string>)
    requires forall i :: 1 <= i < |args| ==> !IsFlag(args[i])
    ensures Arguments(args) == Endpoint("0.0.0.0", 8000)
  {
    if args != [] {
      NoFlagsNoChange(args[1..], DefaultEndpoint);
    }
  }

  /** The value after `--host` is taken as the host even when it looks like a flag, and is
      not read again. */
  lemma HostValueConsumed(v: string, b: seq<string>, e: Endpoint)
    ensures Scan(["--host", v] + b, e) == Scan(b, e.(host := v))
  {
    assert (["--host", v] + b)[2..] == b;
  }
}
