/**
 Whom a port forward belongs to: what its identity tells apart, and which forwards a namespace takes with it
 (apps/plugins/socat/plugin/socat.go).
 */
module Namespaces {
  import opened Wrappers
  import opened Text
  import opened PortForward

  predicate AllDigits(s: string) {
    forall k :: 0 <= k < |s| ==> '0' <= s[k] <= '9'
  }

  function Value(s: string): nat
    requires AllDigits(s)
  {
    if s == "" then 0 else Value(s[..|s| - 1]) * 10 + (s[|s| - 1] as int - '0' as int)
  }

  lemma {:induction false} ValueOfDigits(n: nat)
    ensures Value(Numeral(n)) == n
  {
    var s := Numeral(n);
    if n >= 10 {
      ValueOfDigits(n / 10);
      assert s[..|s| - 1] == Numeral(n / 10);
    } else {
      assert s[..|s| - 1] == "";
    }
  }

  lemma DigitsBehind(a: string, x: string)
    requires AllDigits(x)
    ensures forall k :: |a| < k < |a + "-" + x| ==> (a + "-" + x)[k] != '-'
  {
    forall k | |a| < k < |a + "-" + x| ensures (a + "-" + x)[k] != '-' {
      assert (a + "-" + x)[k] == x[k - |a| - 1];
    }
  }

  /** Two texts that end in digits behind a dash are the same only part by part. */
  lemma LastDash(a: string, x: string, b: string, y: string)
    requires AllDigits(x) && AllDigits(y) && a + "-" + x == b + "-" + y
    ensures a == b && x == y
  {
    var s := a + "-" + x;
    assert s[|a|] == '-' && s[|b|] == '-';
    DigitsBehind(a, x);
    DigitsBehind(b, y);
    assert s[..|a|] == a && s[..|b|] == b;
    assert s[|a| + 1..] == x && s[|b| + 1..] == y;
  }

  /** An identity without its target. */
  function Stem(ns: string, host: nat): string {
    "socat-" + ns + "-" + Numeral(host)
  }

  function Size(n: int): nat {
    if n < 0 then -n else n
  }

  /** An identity is a part that ends in a dash exactly for a negative target, a dash, and digits. */
  lemma IdentityForm(ns: string, host: nat, dest: int) returns (p: string, x: string)
    ensures ForwardId(ns, host, dest) == p + "-" + x && x == Numeral(Size(dest)) && AllDigits(x)
    ensures p == if dest < 0 then Stem(ns, host) + "-" else Stem(ns, host)
    ensures p != "" && (p[|p| - 1] == '-' <==> dest < 0)
  {
    var stem, h := Stem(ns, host), Numeral(host);
    assert stem[|stem| - 1] == h[|h| - 1];
    x := Numeral(Size(dest));
    p := if dest < 0 then stem + "-" else stem;
    if dest < 0 { Associative(stem, "-", "-" + x); Associative(stem + "-", "-", x); Associative("-", "-", x); }
  }

  lemma SameNamespace(ns: string, ns': string, host: nat)
    requires Stem(ns, host) == Stem(ns', host)
    ensures ns == ns'
  {
    LastDash("socat-" + ns, Numeral(host), "socat-" + ns', Numeral(host));
    assert ("socat-" + ns)[6..] == ns && ("socat-" + ns')[6..] == ns';
  }

  /** The identity of a forward from a given host port tells namespaces and targets apart, so only the namespace
      and target that set a forward remove it. */
  lemma IdentityIsExact(ns: string, dest: int, ns': string, dest': int, host: nat)
    ensures ForwardId(ns, host, dest) == ForwardId(ns', host, dest') <==> ns == ns' && dest == dest'
  {
    var p, x := IdentityForm(ns, host, dest);
    var q, y := IdentityForm(ns', host, dest');
    if p + "-" + x == q + "-" + y {
      LastDash(p, x, q, y);
      assert Stem(ns, host) == p[..if dest < 0 then |p| - 1 else |p|];
      assert Stem(ns', host) == q[..if dest' < 0 then |q| - 1 else |q|];
      SameNamespace(ns, ns', host);
      ValueOfDigits(Size(dest));
      ValueOfDigits(Size(dest'));
    }
  }

  lemma Regroup(p: string, n: string, a: string, h: string, b: string, d: string)
    ensures p + n + a + h + b + d == p + (n + a + h + b + d)
  {
    Associative(p, n, a);
    Associative(p, n + a, h);
    Associative(p, n + a + h, b);
    Associative(p, n + a + h + b, d);
  }

  lemma Tail(n: string, a: string, h: string, b: string, d: string)
    ensures n + a + h + b + d == n + (a + h + b + d)
  {
    Associative(n, a, h);
    Associative(n, a + h, b);
    Associative(n, a + h + b, d);
  }

  /** Removing a namespace takes the forwards of every namespace that its name begins, dash and ports included. */
  lemma TakenIff(ns: string, other: string, host: int, dest: int)
    ensures InNamespace(ns, ForwardId(other, host, dest)) <==> ns <= other + "-" + Decimal(host) + "-" + Decimal(dest)
  {
    var p := "socat-";
    var rest := other + "-" + Decimal(host) + "-" + Decimal(dest);
    Regroup(p, other, "-", Decimal(host), "-", Decimal(dest));
    PrefixBehind(p, ns, rest);
  }

  lemma PrefixBehind(p: string, a: string, b: string)
    ensures p + a <= p + b <==> a <= b
  {
    if p + a <= p + b {
      assert (p + b)[..|p + a|] == p + a;
      assert (p + b)[|p|..|p + a|] == b[..|a|] && (p + a)[|p|..] == a;
    }
    if a <= b {
      assert b[..|a|] == a;
      assert (p + b)[..|p + a|] == p + b[..|a|];
    }
  }

  /** The namespace of a container. */
  function OfContainer(id: nat): string {
    "container-" + Numeral(id)
  }

  lemma DigitsThenDash(d: string, e: string, tail: string)
    requires AllDigits(d) && tail != "" && tail[0] == '-'
    ensures d <= e + tail <==> d <= e
  {
    assert (e + tail)[|e|] == '-';
    if d <= e + tail {
      assert forall k :: 0 <= k < |d| ==> d[k] == (e + tail)[k];
      assert (e + tail)[..|d|] == e[..|d|];
    }
    if d <= e {
      assert (e + tail)[..|d|] == e[..|d|];
    }
  }

  /** Removing a container's forwards takes another's exactly when its number begins the other's number. */
  lemma ContainerTakesIff(id: nat, other: nat, host: nat, dest: nat)
    ensures InNamespace(OfContainer(id), ForwardId(OfContainer(other), host, dest)) <==> Numeral(id) <= Numeral(other)
  {
    var tail := "-" + Decimal(host) + "-" + Decimal(dest);
    TakenIff(OfContainer(id), OfContainer(other), host, dest);
    Regroup("container-", Numeral(other), "-", Decimal(host), "-", Decimal(dest));
    Tail(Numeral(other), "-", Decimal(host), "-", Decimal(dest));
    PrefixBehind("container-", Numeral(id), Numeral(other) + tail);
    DigitsThenDash(Numeral(id), Numeral(other), tail);
  }

  /** So taking down container 1 takes the forwards of container 10. */
  lemma ContainerOneTakesTen(host: nat, dest: nat)
    ensures InNamespace(OfContainer(1), ForwardId(OfContainer(10), host, dest))
  {
    assert Numeral(10) == Numeral(1) + Numeral(0);
    ContainerTakesIff(1, 10, host, dest);
  }
}
