/**
 * The address splitting of RBDDriver.get_mon_addrs: each monitor address has
 * the form `host:port/nonce`, an IPv6 host written in brackets.
 */
module MonAddrs {
  import opened Wrappers

  /** The index of the last `c` in `s`, as `str.rindex` and `str.rsplit(c, 1)` find it. */
  function LastIndex(s: string, c: char): (r: Option<nat>)
    ensures r.None? <==> c !in s
    ensures r.Some? ==> r.value < |s| && s[r.value] == c && c !in s[r.value + 1..]
  {
    if s == [] then None
    else if s[|s| - 1] == c then Some(|s| - 1)
    else
      var r := LastIndex(s[..|s| - 1], c);
      if r.Some? then
        assert s[r.value + 1..] == s[..|s| - 1][r.value + 1..] + [s[|s| - 1]];
        r
      else
        assert s == s[..|s| - 1] + [s[|s| - 1]];
        r
  }

  predicate Bracket(c: char) {
    c == '[' || c == ']'
  }

  predicate AllBrackets(t: string) {
    forall k :: 0 <= k < |t| ==> Bracket(t[k])
  }

  /** `r` is `s` with only brackets cut from its start and its end. */
  ghost predicate CutBrackets(s: string, r: string) {
    exists i, j :: 0 <= i <= j <= |s| && r == s[i..j] && AllBrackets(s[..i]) && AllBrackets(s[j..])
  }

  /**
   * `s.strip('[]')`: every leading and trailing bracket removed. The result is
   * `s` with only brackets cut on either side, and it neither starts nor ends
   * with one.
   */
  function Strip(s: string): (r: string)
    ensures r == [] || (!Bracket(r[0]) && !Bracket(r[|r| - 1]))
    ensures CutBrackets(s, r)
    ensures |r| <= |s|
    decreases |s|
  {
    if s == [] then
      CutNothing(s);
      []
    else if Bracket(s[0]) then
      var r := Strip(s[1..]);
      CutFront(s, r);
      r
    else if Bracket(s[|s| - 1]) then
      var r := Strip(s[..|s| - 1]);
      CutBack(s, r);
      r
    else
      CutNothing(s);
      s
  }

  lemma CutNothing(s: string)
    ensures CutBrackets(s, s)
  {
    assert s[0..|s|] == s && AllBrackets(s[..0]) && AllBrackets(s[|s|..]);
  }

  lemma CutFront(s: string, r: string)
    requires s != [] && Bracket(s[0]) && CutBrackets(s[1..], r)
    ensures CutBrackets(s, r)
  {
    var t := s[1..];
    var i, j :| 0 <= i <= j <= |t| && r == t[i..j] && AllBrackets(t[..i]) && AllBrackets(t[j..]);
    SlicesAfterFirst(s, i, j);
    BracketsCons(s[0], t[..i]);
    assert r == s[i + 1..j + 1] && AllBrackets(s[..i + 1]) && AllBrackets(s[j + 1..]);
  }

  lemma CutBack(s: string, r: string)
    requires s != [] && Bracket(s[|s| - 1]) && CutBrackets(s[..|s| - 1], r)
    ensures CutBrackets(s, r)
  {
    var t := s[..|s| - 1];
    var i, j :| 0 <= i <= j <= |t| && r == t[i..j] && AllBrackets(t[..i]) && AllBrackets(t[j..]);
    SlicesBeforeLast(s, i, j);
    BracketsSnoc(t[j..], s[|s| - 1]);
    assert r == s[i..j] && AllBrackets(s[..i]) && AllBrackets(s[j..]);
  }

  lemma SlicesAfterFirst(s: string, i: nat, j: nat)
    requires 0 <= i <= j < |s|
    ensures s[1..][i..j] == s[i + 1..j + 1]
    ensures s[..i + 1] == [s[0]] + s[1..][..i]
    ensures s[j + 1..] == s[1..][j..]
  {
  }

  lemma SlicesBeforeLast(s: string, i: nat, j: nat)
    requires 0 <= i <= j < |s|
    ensures s[..|s| - 1][i..j] == s[i..j]
    ensures s[..|s| - 1][..i] == s[..i]
    ensures s[j..] == s[..|s| - 1][j..] + [s[|s| - 1]]
  {
  }

  lemma BracketsCons(c: char, t: string)
    requires Bracket(c) && AllBrackets(t)
    ensures AllBrackets([c] + t)
  {
    var u := [c] + t;
    forall k | 0 <= k < |u| ensures Bracket(u[k]) {
      if k > 0 {
        assert u[k] == t[k - 1];
      }
    }
  }

  lemma BracketsSnoc(t: string, c: char)
    requires Bracket(c) && AllBrackets(t)
    ensures AllBrackets(t + [c])
  {
    var u := t + [c];
    forall k | 0 <= k < |u| ensures Bracket(u[k]) {
      if k < |t| {
        assert u[k] == t[k];
      }
    }
  }

  datatype HostPort = HostPort(host: string, port: string)

  /**
   * One address: everything before the last '/' is `host:port`, split at its
   * last ':'; the host loses its brackets. An address without '/' or without
   * ':' before it makes get_mon_addrs raise.
   */
  function SplitAddr(addr: string): (r: Option<HostPort>)
    ensures r.None? <==> '/' !in addr || ':' !in addr[..LastIndex(addr, '/').value]
    ensures r.Some? ==> ':' !in r.value.port && |r.value.host| + |r.value.port| < |addr|
  {
    match LastIndex(addr, '/')
    case None => None
    case Some(slash) =>
      var hostPort := addr[..slash];
      match LastIndex(hostPort, ':')
      case None => None
      case Some(colon) => Some(HostPort(Strip(hostPort[..colon]), hostPort[colon + 1..]))
  }

  /** A monitor address as the monitor map writes it. */
  function FormatAddr(host: string, port: string, nonce: string, bracketed: bool): string {
    (if bracketed then "[" + host + "]" else host) + ":" + port + "/" + nonce
  }

  lemma StripBracketed(host: string)
    requires host == [] || (!Bracket(host[0]) && !Bracket(host[|host| - 1]))
    ensures Strip(host) == host
    ensures Strip("[" + host + "]") == host
  {
    var b := "[" + host + "]";
    var c := host + "]";
    assert b[1..] == c;
    StripFront(b);
    if host == [] {
      assert c == "]" && c[1..] == [];
      StripFront(c);
    } else {
      assert c[0] == host[0] && c[..|c| - 1] == host;
      StripBack(c);
    }
  }

  lemma StripFront(s: string)
    requires s != [] && Bracket(s[0])
    ensures Strip(s) == Strip(s[1..])
  {
  }

  lemma StripBack(s: string)
    requires s != [] && !Bracket(s[0]) && Bracket(s[|s| - 1])
    ensures Strip(s) == Strip(s[..|s| - 1])
  {
  }

  /**
   * Round trip: a host without stray brackets (IPv6 colons allowed), a port
   * without ':' or '/', and a nonce without '/' are split back out of the
   * address they form, with or without the brackets.
   */
  lemma SplitFormatAddr(host: string, port: string, nonce: string, bracketed: bool)
    requires host == [] || (!Bracket(host[0]) && !Bracket(host[|host| - 1]))
    requires ':' !in port && '/' !in port && '/' !in nonce
    ensures SplitAddr(FormatAddr(host, port, nonce, bracketed)) == Some(HostPort(host, port))
  {
    var h := if bracketed then "[" + host + "]" else host;
    var hp := h + ":" + port;
    assert FormatAddr(host, port, nonce, bracketed) == hp + ['/'] + nonce;
    LastIndexSplit(hp, '/', nonce);
    assert hp == h + [':'] + port;
    LastIndexSplit(h, ':', port);
    StripBracketed(host);
  }

  /** The last `c` of `a + [c] + b` is the one after `a` when `b` holds none. */
  lemma {:induction false} LastIndexSplit(a: string, c: char, b: string)
    requires c !in b
    ensures LastIndex(a + [c] + b, c) == Some(|a|)
    ensures (a + [c] + b)[..|a|] == a && (a + [c] + b)[|a| + 1..] == b
  {
    LastIndexAfter(a, c, b);
    var s := a + [c] + b;
    assert s[..|a|] == a;
    assert s[|a| + 1..] == b;
  }

  lemma {:induction false} LastIndexAfter(a: string, c: char, b: string)
    requires c !in b
    ensures LastIndex(a + [c] + b, c) == Some(|a|)
    decreases |b|
  {
    var s := a + [c] + b;
    if b == [] {
      assert s[|s| - 1] == c;
    } else {
      var b' := b[..|b| - 1];
      assert s[|s| - 1] == b[|b| - 1];
      assert b[|b| - 1] in b;
      assert s[..|s| - 1] == a + [c] + b';
      assert c !in b' by { assert forall x :: x in b' ==> x in b; }
      LastIndexAfter(a, c, b');
    }
  }

  /** An IPv6 monitor: the brackets go, the colons inside the host stay. */
  lemma SplitIpv6Example()
    ensures SplitAddr("[::1]:6789/0") == Some(HostPort("::1", "6789"))
  {
    assert FormatAddr("::1", "6789", "0", true) == "[::1]:6789/0";
    SplitFormatAddr("::1", "6789", "0", true);
  }

  /**
   * The loop of get_mon_addrs over the `addr` fields of the monitor map: hosts
   * and ports in monitor order, or the first address that does not split.
   */
  method GetMonAddrs(addrs: seq<string>) returns (r: Result<(seq<string>, seq<string>), string>)
    ensures r.Ok? <==> forall i :: 0 <= i < |addrs| ==> SplitAddr(addrs[i]).Some?
    ensures r.Ok? ==>
              && |r.value.0| == |addrs| && |r.value.1| == |addrs|
              && forall i :: 0 <= i < |addrs| ==> SplitAddr(addrs[i]) == Some(HostPort(r.value.0[i], r.value.1[i]))
    ensures r.Err? ==>
              exists i :: 0 <= i < |addrs| && addrs[i] == r.error && SplitAddr(addrs[i]).None?
                          && forall j :: 0 <= j < i ==> SplitAddr(addrs[j]).Some?
  {
    var hosts: seq<string> := [];
    var ports: seq<string> := [];
    for i := 0 to |addrs|
      invariant |hosts| == i && |ports| == i
      invariant forall j :: 0 <= j < i ==> SplitAddr(addrs[j]) == Some(HostPort(hosts[j], ports[j]))
    {
      var hp := SplitAddr(addrs[i]);
      if hp.None? {
        return Err(addrs[i]);
      }
      hosts := hosts + [hp.value.host];
      ports := ports + [hp.value.port];
    }
    return Ok((hosts, ports));
  }
}
