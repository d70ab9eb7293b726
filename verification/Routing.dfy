/** Grouping recipients by mail domain (internal/relay/deliver.go). */
module Routing {
  import opened Text

  type Addr = string

  /** The domain part of an address, lowercased and without a final dot; the whole string if there is no '@'. */
  function DomainOf(addr: Addr): string {
    var at := LastIndexOf(addr, '@');
    if at < 0 then addr
    else
      var d := addr[at + 1..];
      ToLower(if d != [] && d[|d| - 1] == '.' then d[..|d| - 1] else d)
  }

  /** The domain is what follows the last '@', in lower case, without one final dot. */
  lemma DomainLaw(local: string, d: string)
    requires '@' !in d
    ensures DomainOf(local + "@" + d + ".") == ToLower(d)
    ensures d == [] || d[|d| - 1] != '.' ==> DomainOf(local + "@" + d) == ToLower(d)
  {
    LastIndexLaw(local, '@', d);
    LastIndexLaw(local, '@', d + ".");
    var s, t := local + "@" + d, local + "@" + d + ".";
    assert t == local + "@" + (d + ".");
    assert s[|local| + 1..] == d && t[|local| + 1..] == d + "." && (d + ".")[..|d|] == d;
  }

  /** An address without '@' is its own domain. */
  lemma NoDomainLaw(s: string)
    requires '@' !in s
    ensures DomainOf(s) == s
  {
  }

  /** The part behind the '@' as a client writes it: with or without a final dot, in capitals or not. */
  predicate Host(a: Addr, local: string, d: string) {
    '@' !in d && (d == [] || d[|d| - 1] != '.') && (a == local + "@" + d || a == local + "@" + d + ".")
  }

  lemma HostLaw(a: Addr, local: string, d: string)
    requires Host(a, local, d)
    ensures DomainOf(a) == ToLower(d)
  {
    DomainLaw(local, d);
  }

  function Elements(addrs: seq<Addr>): set<Addr> {
    set a | a in addrs
  }

  predicate Distinct(addrs: seq<Addr>) {
    forall i, j :: 0 <= i < j < |addrs| ==> addrs[i] != addrs[j]
  }

  /** The recipients of one domain, in order. */
  function Group(addrs: seq<Addr>, domain: string): (r: seq<Addr>)
    ensures forall a :: a in r <==> a in addrs && DomainOf(a) == domain
  {
    if addrs == [] then []
    else
      var a := addrs[|addrs| - 1];
      Group(addrs[..|addrs| - 1], domain) + if DomainOf(a) == domain then [a] else []
  }

  /** The recipients of all other domains, in order. */
  function Rest(addrs: seq<Addr>, domain: string): (r: seq<Addr>)
    ensures forall a :: a in r <==> a in addrs && DomainOf(a) != domain
  {
    if addrs == [] then []
    else
      var a := addrs[|addrs| - 1];
      Rest(addrs[..|addrs| - 1], domain) + if DomainOf(a) == domain then [] else [a]
  }

  /** Splitting loses and invents no recipient, duplicates included. */
  lemma {:induction false} SplitConserves(addrs: seq<Addr>, domain: string)
    ensures multiset(Group(addrs, domain)) + multiset(Rest(addrs, domain)) == multiset(addrs)
  {
    if addrs != [] {
      var n := |addrs| - 1;
      var front, a := addrs[..n], addrs[n];
      SplitConserves(front, domain);
      LastApart(addrs);
      if DomainOf(a) == domain {
        assert Group(addrs, domain) == Group(front, domain) + [a] && Rest(addrs, domain) == Rest(front, domain);
      } else {
        assert Group(addrs, domain) == Group(front, domain) && Rest(addrs, domain) == Rest(front, domain) + [a];
      }
    }
  }

  lemma LastApart(addrs: seq<Addr>)
    requires addrs != []
    ensures multiset(addrs) == multiset(addrs[..|addrs| - 1]) + multiset{addrs[|addrs| - 1]}
  {
    assert addrs == addrs[..|addrs| - 1] + [addrs[|addrs| - 1]];
  }

  lemma {:induction false} SplitDistinct(addrs: seq<Addr>, domain: string)
    requires Distinct(addrs)
    ensures Distinct(Group(addrs, domain)) && Distinct(Rest(addrs, domain))
    ensures Distinct(Rest(addrs, domain) + Group(addrs, domain))
  {
    if addrs != [] {
      SplitDistinct(addrs[..|addrs| - 1], domain);
    }
    var r, g := Rest(addrs, domain), Group(addrs, domain);
    forall i, j | 0 <= i < |r| && 0 <= j < |g| ensures r[i] != g[j] {
      assert r[i] in r && g[j] in g;
    }
  }

  /** Taking one domain out leaves the group of every other domain as it was. */
  lemma {:induction false} OtherGroups(addrs: seq<Addr>, domain: string, other: string)
    requires other != domain
    ensures Group(addrs, other) == Group(Rest(addrs, domain), other)
  {
    if addrs != [] {
      var front, a := addrs[..|addrs| - 1], addrs[|addrs| - 1];
      OtherGroups(front, domain, other);
      if DomainOf(a) == domain {
        assert Rest(addrs, domain) == Rest(front, domain) && Group(addrs, other) == Group(front, other);
      } else {
        assert Rest(addrs, domain) == Rest(front, domain) + [a];
        GroupSnoc(Rest(front, domain), a, other);
      }
    }
  }

  lemma GroupSnoc(addrs: seq<Addr>, a: Addr, domain: string)
    ensures Group(addrs + [a], domain) == Group(addrs, domain) + if DomainOf(a) == domain then [a] else []
  {
    assert (addrs + [a])[..|addrs|] == addrs;
  }

  /** Putting a failed group back behind the others keeps the same recipients. */
  lemma RegroupKeeps(addrs: seq<Addr>, domain: string)
    ensures forall a :: a in Rest(addrs, domain) + Group(addrs, domain) <==> a in addrs
  {
  }

  /** A conversation with a domain is for exactly the recipients behind whose '@' that domain stands. */
  ghost predicate ByHost(all: seq<Addr>, domains: seq<string>) {
    forall i, a, local, d :: 0 <= i < |domains| && a in all && Host(a, local, d) ==>
      (a in Group(all, domains[i]) <==> domains[i] == ToLower(d))
  }

  lemma ConversationLaw(all: seq<Addr>, domains: seq<string>)
    ensures ByHost(all, domains)
  {
    forall i, a, local, d | 0 <= i < |domains| && a in all && Host(a, local, d)
      ensures a in Group(all, domains[i]) <==> domains[i] == ToLower(d)
    {
      HostLaw(a, local, d);
    }
  }

  /** Recipients with one domain, in whatever case and with or without a final dot, share their conversations. */
  lemma OneConversation(all: seq<Addr>, domains: seq<string>, i: nat, a: Addr, b: Addr, l1: string, d1: string,
                        l2: string, d2: string)
    requires ByHost(all, domains) && i < |domains| && a in all && b in all && Host(a, l1, d1) && Host(b, l2, d2)
    ensures ToLower(d1) == ToLower(d2) ==> (a in Group(all, domains[i]) <==> b in Group(all, domains[i]))
    ensures a in Group(all, domains[i]) && b in Group(all, domains[i]) ==> ToLower(d1) == ToLower(d2)
  {
  }

  method SplitByDomain(addrs: seq<Addr>, domain: string) returns (group: seq<Addr>, rest: seq<Addr>)
    ensures group == Group(addrs, domain) && rest == Rest(addrs, domain)
    ensures multiset(group) + multiset(rest) == multiset(addrs)
  {
    group, rest := [], [];
    for i := 0 to |addrs|
      invariant group == Group(addrs[..i], domain) && rest == Rest(addrs[..i], domain)
    {
      assert addrs[..i + 1][..i] == addrs[..i];
      if DomainOf(addrs[i]) == domain {
        group := group + [addrs[i]];
      } else {
        rest := rest + [addrs[i]];
      }
    }
    assert addrs[..|addrs|] == addrs;
    SplitConserves(addrs, domain);
  }
}
