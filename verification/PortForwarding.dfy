/** feature/forward_address.go and feature/forward.go: the flag that collects addresses, and the
    filter that grants forwarding requests. */
module PortForwarding {
  import opened Decimal
  import opened NetworkAddress
  import opened Sequences

  // ----- NetworkAddress as an object's methods compute it

  /** ParseNetworkAddress with the scan of the port as it runs. */
  method Parse(s: string) returns (r: Result)
    ensures r == ParseNetworkAddress(s)
  {
    match SplitHostPort(s)
    case NoSplit(why) => return BadAddress(why);
    case Split(host, pp) =>
      var port := ParseUint(pp);
      match port
      case Number(n) => return Parsed(Address(host, ToPort(n)));
      case SyntaxError => return BadPort(true);
      case RangeError => return BadPort(false);
  }

  method Print(a: Address) returns (s: string)
    ensures s == ToString(a)
  {
    var port := FormatInt(a.port);
    return JoinHostPort(a.hostname, port);
  }

  // ----- the flag

  /** strings.Join. */
  function Join(parts: seq<string>, sep: string): string {
    if parts == [] then ""
    else if |parts| == 1 then parts[0]
    else parts[0] + sep + Join(parts[1..], sep)
  }

  /** All parts in order, with one separator between any two: these laws leave no other function. */
  lemma {:induction false} JoinLaws(a: seq<string>, b: seq<string>, x: string, sep: string)
    ensures Join([], sep) == "" && Join([x], sep) == x
    ensures a != [] && b != [] ==> Join(a + b, sep) == Join(a, sep) + sep + Join(b, sep)
    decreases |a|
  {
    if a != [] && b != [] {
      assert (a + b)[0] == a[0] && (a + b)[1..] == a[1..] + b;
      if |a| > 1 {
        JoinLaws(a[1..], b, x, sep);
        Regroup(a[0] + sep, Join(a[1..], sep) + sep, Join(b, sep));
        Regroup(a[0] + sep, Join(a[1..], sep), sep);
      } else {
        assert a[1..] + b == b;
      }
    }
  }

  function Printed(addresses: seq<Address>): seq<string> {
    seq(|addresses|, i requires 0 <= i < |addresses| => ToString(addresses[i]))
  }

  /** The slice that a flag points to. */
  class AddressSlice {
    var items: seq<Address>
    constructor ()
      ensures items == []
    {
      items := [];
    }
  }

  class NetworkAddressListVar {
    var Addresses: AddressSlice?

    constructor (addresses: AddressSlice?)
      ensures Addresses == addresses
    {
      Addresses := addresses;
    }

    method String() returns (s: string)
      ensures Addresses == null ==> s == ""
      ensures Addresses != null ==> s == Join(Printed(Addresses.items), ",")
    {
      if Addresses == null {
        return "";
      }
      var items := Addresses.items;
      var ports := new string[|items|];
      for i := 0 to |items|
        invariant forall j :: 0 <= j < i ==> ports[j] == ToString(items[j])
      {
        ports[i] := Print(items[i]);
      }
      assert ports[..] == Printed(items);
      return Join(ports[..], ",");
    }

    /** A failed Set changes nothing; an accepted address is appended. Only the second needs a slice
        to append to. */
    method Set(value: string) returns (err: Result)
      requires Addresses != null || !ParseNetworkAddress(value).Parsed?
      modifies Addresses
      ensures err == ParseNetworkAddress(value)
      ensures Addresses != null ==> Addresses.items == old(Addresses.items) + Accepted([value])
    {
      err := Parse(value);
      assert [value][1..] == [];
      if !err.Parsed? {
        return;
      }
      Addresses.items := Addresses.items + [err.address];
    }

    /** A command line with any number of these flags, good and bad. */
    method SetAll(values: seq<string>)
      requires Addresses != null
      modifies Addresses
      ensures Addresses.items == old(Addresses.items) + Accepted(values)
    {
      ghost var before := Addresses.items;
      for i := 0 to |values|
        invariant Addresses.items == before + Accepted(values[..i])
      {
        var err := Set(values[i]);
        OneMore(values, i);
        Regroup(before, Accepted(values[..i]), Accepted([values[i]]));
      }
      assert values[..|values|] == values;
    }
  }

  /** What one value adds. */
  function Contribution(value: string): seq<Address> {
    match ParseNetworkAddress(value)
    case Parsed(a) => [a]
    case _ => []
  }

  /** The addresses of the values that parse, in order. */
  function Accepted(values: seq<string>): seq<Address> {
    if values == [] then [] else Contribution(values[0]) + Accepted(values[1..])
  }

  lemma {:induction false} AcceptedSplit(a: seq<string>, b: seq<string>)
    ensures Accepted(a + b) == Accepted(a) + Accepted(b)
  {
    if a == [] {
      assert a + b == b;
    } else {
      assert (a + b)[1..] == a[1..] + b;
      AcceptedSplit(a[1..], b);
    }
  }

  lemma {:induction false} OneMore(values: seq<string>, i: nat)
    requires i < |values|
    ensures Accepted(values[..i + 1]) == Accepted(values[..i]) + Accepted([values[i]])
  {
    AcceptedSplit(values[..i], [values[i]]);
    assert values[..i + 1] == values[..i] + [values[i]];
  }

  predicate Says(value: string, a: Address) { a in Contribution(value) }

  lemma {:induction false} InAccepted(values: seq<string>, a: Address)
    ensures a in Accepted(values) <==> exists i :: 0 <= i < |values| && Says(values[i], a)
  {
    if values != [] {
      var rest := values[1..];
      InAccepted(rest, a);
      assert forall i :: 0 <= i < |rest| ==> rest[i] == values[i + 1];
      if a in Contribution(values[0]) {
        assert Says(values[0], a);
      } else if a in Accepted(rest) {
        var i :| 0 <= i < |rest| && Says(rest[i], a);
        assert Says(values[i + 1], a);
      } else {
        forall i | 0 <= i < |values|
          ensures !Says(values[i], a)
        {
          assert i > 0 ==> !Says(rest[i - 1], a);
        }
      }
    }
  }

  // ----- the filter

  method FilterInternal(addresses: seq<Address>, actual: Address) returns (granted: bool)
    ensures granted <==> actual in addresses
  {
    for i := 0 to |addresses|
      invariant actual !in addresses[..i]
    {
      if addresses[i].hostname == actual.hostname && addresses[i].port == actual.port {
        return true;
      }
    }
    assert addresses[..|addresses|] == addresses;
    return false;
  }

  /** AllowForwardTo and AllowForwardFrom: the callback for one request. The request carries a uint32
      port, per sections 7.1 and 7.2 of RFC 4254. */
  method Allow(addresses: seq<Address>, host: string, port: nat) returns (granted: bool)
    requires port <= MaxUint32
    ensures granted <==> Address(host, ToPort(port)) in addresses
  {
    granted := FilterInternal(addresses, Address(host, ToPort(port)));
  }

  /** The flags decide: a request is granted if and only if some flag string that was accepted says
      this host, and a port with the same low 16 bits. */
  method FlagsDecide(values: seq<string>, host: string, port: nat) returns (granted: bool)
    requires port <= MaxUint32
    ensures granted <==> exists i, text ::
              0 <= i < |values| && Written(values[i], host, text) && PortText(text, ToPort(port))
  {
    var slice := new AddressSlice();
    var flag := new NetworkAddressListVar(slice);
    flag.SetAll(values);
    granted := Allow(slice.items, host, port);
    GrantedExactly(values, host, port);
  }

  lemma GrantedExactly(values: seq<string>, host: string, port: nat)
    ensures Address(host, ToPort(port)) in Accepted(values)
            <==> exists i, text :: 0 <= i < |values| && Written(values[i], host, text) && PortText(text, ToPort(port))
  {
    var a := Address(host, ToPort(port));
    InAccepted(values, a);
    forall i | 0 <= i < |values|
      ensures Says(values[i], a)
              <==> exists text :: Written(values[i], host, text) && PortText(text, ToPort(port))
    {
      ParsesExactly(values[i], a);
    }
  }
}
