/** Endpoints and their collisions (`endpoint_projection.py`). */
module Endpoint {
  import opened Text

  datatype Ip = V4(n: nat) | V6(n: nat)

  predicate Valid(ip: Ip) { ip.n < if ip.V4? then 0x1_0000_0000 else 0x1_0000_0000_0000_0000_0000_0000_0000_0000 }

  /** The address library: what a string spells, and how an address is spelled. */
  datatype Library = Library(parse: string -> Option<Ip>, show: Ip -> string)

  predicate Bracketed(s: string) { StartsWith(s, "[") && EndsWith(s, "]") && |s| >= 2 }

  function Bare(host: string): string {
    var value := Lower(Strip(host));
    if Bracketed(value) then value[1..|value| - 1] else value
  }

  /** An address is spelled plainly and the spelling is read back. */
  ghost predicate Faithful(lib: Library) {
    && (forall s | lib.parse(s).Some? :: Valid(lib.parse(s).value))
    && (forall ip | Valid(ip) ::
       lib.parse(lib.show(ip)) == Some(ip) && Bare(lib.show(ip)) == lib.show(ip) && lib.show(ip) != "*")
    && lib.show(V4(0)) == "0.0.0.0" && lib.show(V6(0)) == "::"
  }

  /** An IPv6 address that maps an IPv4 one is taken as that one. */
  function Unmapped(ip: Ip): Ip {
    if ip.V6? && ip.n / 0x1_0000_0000 == 0xFFFF then V4(ip.n % 0x1_0000_0000) else ip
  }

  /** `_normalized_ip`. */
  function NormalIp(lib: Library, host: string): Option<Ip> {
    var value := Bare(host);
    if value == "*" || lib.parse(value).None? then None else Some(Unmapped(lib.parse(value).value))
  }

  /** `normalized_host`. */
  function NormalHost(lib: Library, host: string): string {
    var value := Bare(host);
    if value == "*" then "0.0.0.0"
    else
      var ip := NormalIp(lib, value);
      if ip.Some? then lib.show(ip.value) else value
  }

  datatype Endpoint = Endpoint(host: string, port: nat, purpose: Purpose, owner: Option<string>, dual: bool)

  datatype Purpose = Mcp | Health | Unattributed

  /** `endpoint_overlap`: whether two endpoints collide, when that can be told locally. */
  function Overlap(lib: Library, left: Endpoint, right: Endpoint): Option<bool> {
    var lh, rh := NormalHost(lib, left.host), NormalHost(lib, right.host);
    var li, ri := NormalIp(lib, lh), NormalIp(lib, rh);
    if left.port != right.port then Some(false)
    else if lh == rh then Some(true)
    else if li.None? || ri.None? then None
    else
      match (li.value, ri.value)
      case (V4(_), V4(_)) => Some(lib.show(li.value) == "0.0.0.0" || lib.show(ri.value) == "0.0.0.0")
      case (V6(_), V6(_)) => Some(lib.show(li.value) == "::" || lib.show(ri.value) == "::")
      case (V6(_), V4(_)) => Some(lib.show(li.value) == "::" && left.dual)
      case (V4(_), V6(_)) => Some(lib.show(ri.value) == "::" && right.dual)
  }

  /** The address a bind host means, when it is one. */
  function Address(lib: Library, host: string): Option<Ip> { NormalIp(lib, NormalHost(lib, host)) }

  lemma AddressIsValid(lib: Library, host: string)
    requires Faithful(lib)
    ensures Address(lib, host).Some? ==>
              Valid(Address(lib, host).value) && Unmapped(Address(lib, host).value) == Address(lib, host).value
    ensures NormalIp(lib, host).Some? ==>
              Valid(NormalIp(lib, host).value) && Unmapped(NormalIp(lib, host).value) == NormalIp(lib, host).value
  {
    hide Bare;
  }

  /** A normalized host that is an address is that address's spelling. */
  lemma NormalSpelling(lib: Library, host: string)
    requires Faithful(lib)
    ensures Address(lib, host).Some? ==> NormalHost(lib, host) == lib.show(Address(lib, host).value)
  {
    hide Bare;
    AddressIsValid(lib, Bare(host));
    assert Valid(V4(0)) && Unmapped(V4(0)) == V4(0);
  }

  lemma ShowInjective(lib: Library, a: Ip, b: Ip)
    requires Faithful(lib) && Valid(a) && Valid(b)
    ensures lib.show(a) == lib.show(b) <==> a == b
  {
    hide Bare;
  }

  /** What a bound address listens on; a `::` listener may take IPv4 too. */
  predicate Covers(bound: Ip, dual: bool, a: Ip) {
    match bound
    case V4(n) => a.V4? && (n == 0 || a == bound)
    case V6(n) => (a.V6? && (n == 0 || a == bound)) || (a.V4? && n == 0 && dual)
  }

  ghost predicate BindSetsMeet(x: Ip, xDual: bool, y: Ip, yDual: bool) {
    exists a :: Valid(a) && Covers(x, xDual, a) && Covers(y, yDual, a)
  }

  lemma MeetExactly(x: Ip, xDual: bool, y: Ip, yDual: bool)
    requires Valid(x) && Valid(y)
    ensures BindSetsMeet(x, xDual, y, yDual)
            <==> x == y || (x.V4? == y.V4? && (x.n == 0 || y.n == 0))
                 || (x.V6? && y.V4? && x.n == 0 && xDual) || (x.V4? && y.V6? && y.n == 0 && yDual)
  {
    assert Covers(x, xDual, x) && Covers(y, yDual, y);
    if x.V6? && y.V4? && x.n == 0 && xDual { assert Covers(x, xDual, y); }
    if x.V4? && y.V6? && y.n == 0 && yDual { assert Covers(y, yDual, x); }
    if x.V4? == y.V4? && x.n == 0 { assert Covers(x, xDual, y); }
    if x.V4? == y.V4? && y.n == 0 { assert Covers(y, yDual, x); }
  }

  /** On address literals the answer is always given, and it is whether the bind sets meet. */
  lemma OverlapIsMeeting(lib: Library, l: Endpoint, r: Endpoint)
    requires Faithful(lib) && Address(lib, l.host).Some? && Address(lib, r.host).Some?
    ensures Overlap(lib, l, r)
            == Some(l.port == r.port
              && BindSetsMeet(Address(lib, l.host).value, l.dual, Address(lib, r.host).value, r.dual))
  {
    hide Bare, NormalHost, NormalIp, Unmapped;
    var x, y := Address(lib, l.host).value, Address(lib, r.host).value;
    AddressIsValid(lib, l.host);
    AddressIsValid(lib, r.host);
    NormalSpelling(lib, l.host);
    NormalSpelling(lib, r.host);
    ShowInjective(lib, x, y);
    assert Valid(V4(0)) && Valid(V6(0));
    ShowInjective(lib, x, V4(0));
    ShowInjective(lib, x, V6(0));
    ShowInjective(lib, y, V4(0));
    ShowInjective(lib, y, V6(0));
    MeetExactly(x, l.dual, y, r.dual);
  }

  /** Addresses two bind hosts may stand for: what they spell, or whatever a name resolves to. */
  ghost predicate MayMean(lib: Library, l: Endpoint, r: Endpoint, x: Ip, y: Ip) {
    && Valid(x) && Valid(y)
    && (Address(lib, l.host).Some? ==> x == Address(lib, l.host).value)
    && (Address(lib, r.host).Some? ==> y == Address(lib, r.host).value)
    && (NormalHost(lib, l.host) == NormalHost(lib, r.host) ==> x == y)
  }

  ghost predicate Collide(l: Endpoint, r: Endpoint, x: Ip, y: Ip) {
    l.port == r.port && BindSetsMeet(x, l.dual, y, r.dual)
  }

  /** How names resolve decides. */
  ghost predicate Depends(lib: Library, l: Endpoint, r: Endpoint) {
    && (exists x, y :: MayMean(lib, l, r, x, y) && Collide(l, r, x, y))
    && (exists x, y :: MayMean(lib, l, r, x, y) && !Collide(l, r, x, y))
  }

  /** A name, and a wildcard that takes both families. */
  predicate UnderBoth(lib: Library, name: Endpoint, wild: Endpoint) {
    Address(lib, name.host).None? && Address(lib, wild.host) == Some(V6(0)) && wild.dual
  }

  /** An answer holds however names resolve. */
  lemma AnswerHolds(lib: Library, l: Endpoint, r: Endpoint, x: Ip, y: Ip)
    requires Faithful(lib) && MayMean(lib, l, r, x, y) && Overlap(lib, l, r).Some?
    ensures Overlap(lib, l, r).value <==> Collide(l, r, x, y)
  {
    MeetExactly(x, l.dual, y, r.dual);
    if Address(lib, l.host).Some? && Address(lib, r.host).Some? { OverlapIsMeeting(lib, l, r); }
    hide Bare, NormalHost, NormalIp;
  }

  /** No answer is given exactly when it depends on how names resolve; or for a name on the port of
      a wildcard that takes both families, where it would be a collision all the same. */
  lemma WithheldExactly(lib: Library, l: Endpoint, r: Endpoint)
    requires Faithful(lib)
    ensures Overlap(lib, l, r).None?
            <==> Depends(lib, l, r) || (l.port == r.port && (UnderBoth(lib, l, r) || UnderBoth(lib, r, l)))
  {
    hide Bare, NormalHost, NormalIp, BindSetsMeet, Collide;
    if Overlap(lib, l, r).Some? {
      forall x, y | MayMean(lib, l, r, x, y)
        ensures Overlap(lib, l, r).value <==> Collide(l, r, x, y)
      { AnswerHolds(lib, l, r, x, y); }
    } else if !UnderBoth(lib, l, r) && !UnderBoth(lib, r, l) {
      NamesDecide(lib, l, r);
    }
  }

  lemma NamesDecide(lib: Library, l: Endpoint, r: Endpoint)
    requires Faithful(lib) && Overlap(lib, l, r).None? && !UnderBoth(lib, l, r) && !UnderBoth(lib, r, l)
    ensures Depends(lib, l, r)
  {
    hide Bare, NormalHost, NormalIp, BindSetsMeet;
    AddressIsValid(lib, l.host);
    AddressIsValid(lib, r.host);
    var a, b := Address(lib, l.host), Address(lib, r.host);
    var same := if a.Some? then a.value else if b.Some? then b.value else V4(1);
    var x := if a.Some? then a.value else if b.Some? && b.value.V4? then V6(1) else V4(1);
    var y := if b.Some? then b.value else if x.V4? then V6(1) else V4(1);
    assert Valid(V4(1)) && Valid(V6(1));
    MeetExactly(same, l.dual, same, r.dual);
    MeetExactly(x, l.dual, y, r.dual);
    assert MayMean(lib, l, r, same, same) && Collide(l, r, same, same);
    assert MayMean(lib, l, r, x, y) && !Collide(l, r, x, y);
  }

  lemma OverlapSymmetric(lib: Library, l: Endpoint, r: Endpoint)
    ensures Overlap(lib, l, r) == Overlap(lib, r, l)
  {
    hide Bare, NormalHost, NormalIp;
  }

  lemma StarAddress(lib: Library)
    requires Faithful(lib)
    ensures Address(lib, "*") == Some(V4(0)) && Address(lib, "::") == Some(V6(0))
  {
    Unspaced("*");
    assert Lower("*") == "*";
    assert Bare("*") == "*";
    assert Valid(V4(0)) && Valid(V6(0));
    assert Bare("0.0.0.0") == "0.0.0.0" && Bare("::") == "::";
  }

  /** A listener spelled `*` is taken for the IPv4 wildcard. Where such a listener takes both families
      this is right exactly for IPv4 addresses and for a wildcard that takes both families itself. */
  lemma StarExactly(lib: Library, e: Endpoint)
    requires Faithful(lib) && Address(lib, e.host).Some?
    ensures Overlap(lib, e, Endpoint("*", e.port, Unattributed, None, false))
            == Overlap(lib, e, Endpoint("::", e.port, Unattributed, None, true))
            <==> Address(lib, e.host).value.V4? || (Address(lib, e.host).value == V6(0) && e.dual)
  {
    var star, both := Endpoint("*", e.port, Unattributed, None, false),
      Endpoint("::", e.port, Unattributed, None, true);
    StarAddress(lib);
    AddressIsValid(lib, e.host);
    hide Bare, NormalHost, NormalIp, Unmapped, Address, Overlap;
    OverlapIsMeeting(lib, e, star);
    OverlapIsMeeting(lib, e, both);
    assert Valid(V4(0)) && Valid(V6(0));
    MeetExactly(Address(lib, e.host).value, e.dual, V4(0), false);
    MeetExactly(Address(lib, e.host).value, e.dual, V6(0), true);
  }

  /** So an IPv6 loopback on its port is held to be free. */
  lemma StarMissesV6(lib: Library, port: nat)
    requires Faithful(lib) && lib.parse("::1") == Some(V6(1))
    ensures Overlap(lib, Endpoint("::1", port, Mcp, None, false), Endpoint("*", port, Unattributed, None, false))
            == Some(false)
    ensures Overlap(lib, Endpoint("::1", port, Mcp, None, false), Endpoint("::", port, Unattributed, None, true))
            == Some(true)
  {
    var l := Endpoint("::1", port, Mcp, None, false);
    assert Bare("::1") == "::1" by {
      assert Lower("::1") == "::1";
      Unspaced("::1");
    }
    assert lib.parse(lib.show(V6(1))) == Some(V6(1)) by { assert Valid(V6(1)); }
    assert Address(lib, "::1") == Some(V6(1));
    StarAddress(lib);
    hide Bare, NormalHost, NormalIp, Unmapped, Address, Overlap;
    OverlapIsMeeting(lib, l, Endpoint("*", port, Unattributed, None, false));
    OverlapIsMeeting(lib, l, Endpoint("::", port, Unattributed, None, true));
    assert Valid(V4(0)) && Valid(V6(0)) && Valid(V6(1));
    MeetExactly(V6(1), false, V4(0), false);
    MeetExactly(V6(1), false, V6(0), true);
  }

  lemma Unspaced(s: string)
    requires s != "" && !IsSpace(s[0]) && !IsSpace(s[|s| - 1])
    ensures Strip(s) == s
  {
  }
}
