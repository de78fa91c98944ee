/** The pure part of the replica fan-out: the set of distinct addresses a
    host resolves to, and the URL of each address's synthetic target. */
module TargetExpansion {
  import opened MonitoringTypes

  /** The distinct addresses of a resolver's answer (collected into a set). */
  function AddressSet(addresses: seq<string>): set<string>
  {
    set a | a in addresses
  }

  /** `order` lists every element of `ips` exactly once: one possible iteration
      order of a hash set whose iteration order is left unspecified. */
  ghost predicate IsEnumeration(order: seq<string>, ips: set<string>)
  {
    && (forall i, j | 0 <= i < j < |order| :: order[i] != order[j])
    && (forall a :: a in order <==> a in ips)
  }

  /** The URL of the synthetic target for address `ip`: the base URL's scheme
      and port, the address as host, no user info, an empty path and neither
      query nor fragment. */
  function IpUrl(base: Url, ip: string): Url
  {
    Url(base.scheme, None, ip, base.port, "", None, None)
  }

  /** The synthetic URLs for the addresses of `order`, in that order. */
  function IpUrls(base: Url, order: seq<string>): (urls: seq<Url>)
    ensures |urls| == |order|
    ensures forall k | 0 <= k < |order| :: urls[k] == IpUrl(base, order[k])
  {
    seq(|order|, k requires 0 <= k < |order| => IpUrl(base, order[k]))
  }

  /** A resolver answer of n addresses has at most n distinct ones, and
      exactly n only when it repeats none. */
  lemma {:induction false} AddressSetSize(addresses: seq<string>)
    ensures |AddressSet(addresses)| <= |addresses|
    ensures |AddressSet(addresses)| == |addresses| <==>
              forall i, j | 0 <= i < j < |addresses| :: addresses[i] != addresses[j]
  {
    if addresses != [] {
      var n := |addresses| - 1;
      var rest := addresses[..n];
      AddressSetSize(rest);
      assert addresses == rest + [addresses[n]];
      if addresses[n] in rest {
        assert AddressSet(addresses) == AddressSet(rest);
        var i :| 0 <= i < n && rest[i] == addresses[n];
        assert addresses[i] == addresses[n];
      } else {
        assert AddressSet(addresses) == AddressSet(rest) + {addresses[n]};
        if forall i, j | 0 <= i < j < |rest| :: rest[i] != rest[j] {
          forall i, j | 0 <= i < j < |addresses|
            ensures addresses[i] != addresses[j]
          {
            if j == n {
              assert addresses[i] in rest;
            } else {
              assert rest[i] != rest[j];
            }
          }
        } else {
          var i, j :| 0 <= i < j < |rest| && rest[i] == rest[j];
          assert addresses[i] == addresses[j];
        }
      }
    }
  }

  /** An enumeration of a set is exactly as long as the set is large. */
  lemma {:induction false} EnumerationLength(order: seq<string>, ips: set<string>)
    requires IsEnumeration(order, ips)
    ensures |order| == |ips|
  {
    if order != [] {
      var n := |order| - 1;
      var last := order[n];
      assert last in ips;
      assert IsEnumeration(order[..n], ips - {last}) by {
        forall a
          ensures a in order[..n] <==> a in ips - {last}
        {
          if a in order[..n] {
            var i :| 0 <= i < n && order[i] == a;
            assert order[i] != order[n];
          }
          if a in ips - {last} {
            assert a in order;
            var i :| 0 <= i < |order| && order[i] == a;
            assert order[..n][i] == a;
          }
        }
      }
      EnumerationLength(order[..n], ips - {last});
    }
  }

  /** The synthetic URLs of an enumeration of the resolved addresses: one per
      distinct address, each carrying that address as host, the base URL's
      scheme and port, and nothing else. */
  lemma IpUrlsOfAddresses(base: Url, order: seq<string>, ips: set<string>)
    requires IsEnumeration(order, ips)
    ensures |IpUrls(base, order)| == |ips|
    ensures forall k | 0 <= k < |order| ::
              var u := IpUrls(base, order)[k];
              && u.host in ips
              && u.scheme == base.scheme && u.port == base.port
              && u.userInfo.None? && u.path == "" && u.query.None? && u.fragment.None?
    ensures forall ip | ip in ips :: exists k | 0 <= k < |order| :: IpUrls(base, order)[k].host == ip
    ensures forall k, l | 0 <= k < l < |order| :: IpUrls(base, order)[k] != IpUrls(base, order)[l]
  {
    EnumerationLength(order, ips);
    forall ip | ip in ips
      ensures exists k | 0 <= k < |order| :: IpUrls(base, order)[k].host == ip
    {
      assert ip in order;
      var k :| 0 <= k < |order| && order[k] == ip;
      assert IpUrls(base, order)[k].host == ip;
    }
  }
}
