/** src/server.rs: the addresses the server announces at start-up, ordered with the local
    network ones first, and the label and URL printed for each. The machine's own address is
    a parameter (`local_ip()` and its error), and the printing is the returned banner list. */
module Server {
  import opened Wrappers
  import opened Strings
  import opened StableSort
  import Cli

  type Octet = x: nat | x < 256

  /** An IPv6 address is carried as the text `Display` writes for it. */
  datatype IpAddr = V4(a: Octet, b: Octet, c: Octet, d: Octet) | V6(text: string)

  const Localhost: IpAddr := V4(127, 0, 0, 1)

  /** `x.rest`: a field of an address text and what follows its dot. */
  function Dotted(x: string, rest: string): string {
    x + "." + rest
  }

  /** `ip.to_string()`: dotted decimal for IPv4. */
  function Display(ip: IpAddr): string {
    match ip
    case V4(a, b, c, d) => Dotted(Dec(a), Dotted(Dec(b), Dotted(Dec(c), Dec(d))))
    case V6(t) => t
  }

  /** `is_loopback`: 127.0.0.0/8, or `::1`. */
  predicate IsLoopback(ip: IpAddr) {
    match ip
    case V4(a, _, _, _) => a == 127
    case V6(t) => t == "::1"
  }

  /** The sort key of `get_all_ips`, read off the address text. */
  function Rank(ip: IpAddr): (r: nat)
    ensures r <= 3
  {
    var s := Display(ip);
    if StartsWith(s, "192.168.") then 0
    else if StartsWith(s, "10.") then 1
    else if StartsWith(s, "172.") then 2
    else 3
  }

  // ---------------------------------------------------------------------------------------
  // What the text prefixes mean for an IPv4 address

  lemma PrefixOfDotted(x: string, u: string, w: string)
    requires StartsWith(u, w)
    ensures StartsWith(Dotted(x, u), Dotted(x, w))
  {
    var p := Dotted(x, w);
    assert Dotted(x, u) == (x + ".") + u;
    assert p == (x + ".") + w;
    assert Dotted(x, u)[..|p|] == (x + ".") + u[..|w|];
  }

  lemma {:induction false} SameFieldLength(x: string, y: string, u: string, w: string)
    requires AllDigits(x) && AllDigits(y)
    requires StartsWith(Dotted(x, u), Dotted(y, w))
    ensures |x| == |y|
  {
    var s := Dotted(x, u);
    var p := Dotted(y, w);
    // compare the two texts where the first of the two dots stands
    var i := if |x| < |y| then |x| else |y|;
    assert s[i] == p[i];
    assert s[i] == '.' <==> i == |x|;
    assert p[i] == '.' <==> i == |y|;
  }

  lemma DottedPrefixParts(x: string, y: string, u: string, w: string)
    requires AllDigits(x) && AllDigits(y)
    requires StartsWith(Dotted(x, u), Dotted(y, w))
    ensures x == y && StartsWith(u, w)
  {
    SameFieldLength(x, y, u, w);
    var s := Dotted(x, u);
    var p := Dotted(y, w);
    assert x == s[..|x|] && y == p[..|y|];
    assert u == s[|x| + 1..] && w == p[|y| + 1..];
    assert u[..|w|] == s[|x| + 1..|p|];
  }

  /** For decimal fields, `x.u` starts with `y.w` exactly when `x == y` and `u` starts
      with `w`. */
  lemma DottedPrefix(x: string, y: string, u: string, w: string)
    requires AllDigits(x) && AllDigits(y)
    ensures StartsWith(Dotted(x, u), Dotted(y, w)) <==> x == y && StartsWith(u, w)
  {
    if StartsWith(Dotted(x, u), Dotted(y, w)) {
      DottedPrefixParts(x, y, u, w);
    }
    if x == y && StartsWith(u, w) {
      PrefixOfDotted(x, u, w);
    }
  }

  lemma RankPrefixes()
    ensures "192.168." == Dotted("192", Dotted("168", ""))
    ensures "10." == Dotted("10", "")
    ensures "172." == Dotted("172", "")
    ensures Dec(192) == "192" && Dec(168) == "168" && Dec(10) == "10" && Dec(172) == "172"
  {
  }

  /** `Dec(n)` is the decimal text of `m` exactly when `n == m`. */
  lemma DecIs(n: nat, m: nat)
    ensures Dec(n) == Dec(m) <==> n == m
  {
    if Dec(n) == Dec(m) {
      DecInjective(n, m);
    }
  }

  /** The rank of an IPv4 address by its octets: 192.168/16 first, then 10/8, then
      172/8, then the rest. */
  lemma V4Rank(a: Octet, b: Octet, c: Octet, d: Octet)
    ensures Rank(V4(a, b, c, d)) ==
      (if a == 192 && b == 168 then 0 else if a == 10 then 1 else if a == 172 then 2 else 3)
  {
    var tail := Dotted(Dec(c), Dec(d));
    var rest := Dotted(Dec(b), tail);
    RankPrefixes();
    DottedPrefix(Dec(a), "192", rest, Dotted("168", ""));
    DottedPrefix(Dec(b), "168", tail, "");
    assert StartsWith(tail, "");
    DottedPrefix(Dec(a), "10", rest, "");
    DottedPrefix(Dec(a), "172", rest, "");
    assert StartsWith(rest, "");
    DecIs(a, 192);
    DecIs(b, 168);
    DecIs(a, 10);
    DecIs(a, 172);
  }

  // ---------------------------------------------------------------------------------------
  // get_all_ips and print_server_info

  /** `get_all_ips`, given what `local_ip()` returned: 127.0.0.1, then the local address
      unless it is a loopback one, sorted by rank. */
  method GetAllIps(local: Result<IpAddr, string>) returns (ips: seq<IpAddr>)
    ensures Localhost in ips
    ensures 1 <= |ips| <= 2
    ensures local.Ok? && !IsLoopback(local.value) ==> multiset(ips) == multiset{Localhost, local.value}
    ensures !(local.Ok? && !IsLoopback(local.value)) ==> ips == [Localhost]
    ensures SortedBy(ips, Rank)
    ensures forall r :: WithKey(ips, Rank, r) == WithKey(Pushed(local), Rank, r)
  {
    ips := [Localhost];
    if local.Ok? && !IsLoopback(local.value) {
      ips := ips + [local.value];
    }
    assert ips == Pushed(local);
    var sorted := SortBy(ips, Rank);
    SortBySorted(ips, Rank);
    forall r {
      SortByStable(ips, Rank, r);
    }
    assert Localhost in multiset(sorted);
    ips := sorted;
  }

  /** The addresses in the order they are pushed, before sorting. */
  function Pushed(local: Result<IpAddr, string>): seq<IpAddr> {
    if local.Ok? && !IsLoopback(local.value) then [Localhost, local.value] else [Localhost]
  }

  datatype Label = LocalhostAccess | LocalNetworkAccess | OtherNetworkAccess

  /** The heading printed above each address. */
  function LabelOf(ip: IpAddr): Label {
    var s := Display(ip);
    if IsLoopback(ip) then LocalhostAccess
    else if StartsWith(s, "192.168.") || StartsWith(s, "10.") then LocalNetworkAccess
    else OtherNetworkAccess
  }

  /** The label agrees with the sort: the local-network heading goes exactly to the
      non-loopback addresses of the two best ranks; 172.* is not among them. */
  lemma LabelRank(ip: IpAddr)
    ensures LabelOf(ip) == LocalNetworkAccess <==> !IsLoopback(ip) && Rank(ip) <= 1
    ensures LabelOf(ip) == OtherNetworkAccess <==> !IsLoopback(ip) && Rank(ip) >= 2
  {
  }

  /** Labels of IPv4 addresses by octets. */
  lemma V4Label(a: Octet, b: Octet, c: Octet, d: Octet)
    ensures LabelOf(V4(a, b, c, d)) ==
      (if a == 127 then LocalhostAccess
       else if (a == 192 && b == 168) || a == 10 then LocalNetworkAccess
       else OtherNetworkAccess)
  {
    V4Rank(a, b, c, d);
    LabelRank(V4(a, b, c, d));
  }

  /** `format!("http://{}:{}", ip, port)`. */
  function Url(ip: IpAddr, port: nat): string {
    "http://" + Display(ip) + ":" + Dec(port)
  }

  datatype Banner = Banner(heading: Label, url: string)

  /** The banner printed for one address. */
  function BannerFor(ip: IpAddr, port: nat): Banner {
    Banner(LabelOf(ip), Url(ip, port))
  }

  /** The printing loop of `print_server_info`: one banner per address, in order. */
  method Banners(ips: seq<IpAddr>, port: nat) returns (banners: seq<Banner>)
    ensures |banners| == |ips|
    ensures forall i :: 0 <= i < |ips| ==> banners[i] == BannerFor(ips[i], port)
  {
    banners := [];
    for i := 0 to |ips|
      invariant |banners| == i
      invariant forall j :: 0 <= j < i ==> banners[j] == BannerFor(ips[j], port)
    {
      banners := banners + [BannerFor(ips[i], port)];
    }
  }

  /** `print_server_info`: one banner per address `get_all_ips` gives, in its order: always
      127.0.0.1, and the machine's own address too unless it is a loopback one. */
  method PrintServerInfo(local: Result<IpAddr, string>, port: nat) returns (ips: seq<IpAddr>, banners: seq<Banner>)
    ensures |banners| == |ips| && Localhost in ips && SortedBy(ips, Rank)
    ensures local.Ok? && !IsLoopback(local.value) ==> multiset(ips) == multiset{Localhost, local.value}
    ensures !(local.Ok? && !IsLoopback(local.value)) ==> ips == [Localhost]
    ensures forall r :: WithKey(ips, Rank, r) == WithKey(Pushed(local), Rank, r)
    ensures forall i :: 0 <= i < |ips| ==> banners[i] == Banner(LabelOf(ips[i]), Url(ips[i], port))
  {
    ips := GetAllIps(local);
    banners := Banners(ips, port);
  }

  lemma UrlTextPort(host: string, port: nat)
    requires port < 0x10000
    ensures var u := "http://" + host + ":" + Dec(port);
      var k := |u| - |Dec(port)|;
      StartsWith(u, "http://") && u[7..k - 1] == host && u[k - 1] == ':'
      && Cli.ParseU16(u[k..]) == Some(port)
  {
    var u := "http://" + host + ":" + Dec(port);
    var k := |u| - |Dec(port)|;
    assert u == ("http://" + host + ":") + Dec(port);
    assert u[k..] == Dec(port);
    assert u[..7] == "http://";
    assert u[7..k - 1] == host;
    Cli.ParseU16Dec(port);
  }

  /** The URL is "http://", the address, ':' and the port in decimal, which reads back as
      the port. */
  lemma UrlPort(ip: IpAddr, port: nat)
    requires port < 0x10000
    ensures var u := Url(ip, port);
      var k := |u| - |Dec(port)|;
      StartsWith(u, "http://") && u[7..k - 1] == Display(ip) && u[k - 1] == ':'
      && Cli.ParseU16(u[k..]) == Some(port)
  {
    UrlTextPort(Display(ip), port);
  }
}
