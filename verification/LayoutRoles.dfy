/**
 The roles under which artifacts are published, and why the namespace of a source's
 number keeps them apart.
 */
module LayoutRoles {
  import opened Decimals

  predicate Distinct(roles: seq<string>) {
    forall i, j | 0 <= i < j < |roles| :: roles[i] != roles[j]
  }

  function Zeros(n: nat): (r: string)
    ensures |r| == n && forall c <- r :: c == '0'
  {
    if n == 0 then "" else Zeros(n - 1) + "0"
  }

  /** The number as "%04d" writes it. */
  function Padded(n: nat): (r: string)
    ensures forall c <- r :: IsDigit(c)
  {
    var d := Digits(n);
    Zeros(if |d| < 4 then 4 - |d| else 0) + d
  }

  lemma {:induction false} LeadingZeros(k: nat, s: string)
    ensures Number(Zeros(k) + s) == Number(s)
    decreases |s|, k
  {
    if s != "" {
      LeadingZeros(k, s[..|s| - 1]);
      assert (Zeros(k) + s)[..k + |s| - 1] == Zeros(k) + s[..|s| - 1];
    } else if k > 0 {
      LeadingZeros(k - 1, s);
      assert Zeros(k) + s == Zeros(k) && Zeros(k - 1) + s == Zeros(k - 1);
      assert Zeros(k)[..k - 1] == Zeros(k - 1);
    } else {
      assert Zeros(k) + s == "";
    }
  }

  /** Padded to four places, a number is read back as itself. */
  lemma NumberOfPadded(n: nat)
    ensures Number(Padded(n)) == n
    ensures |Padded(n)| == if |Digits(n)| > 4 then |Digits(n)| else 4
  {
    NumberOfDigits(n);
    var d := Digits(n);
    LeadingZeros(if |d| < 4 then 4 - |d| else 0, d);
  }

  /** The role of source i inside its namespace. */
  function Namespaced(i: nat, role: string): string {
    "source-" + (Padded(i + 1) + ("/" + role))
  }

  function UntilSlash(s: string): string {
    if s == "" || s[0] == '/' then "" else [s[0]] + UntilSlash(s[1..])
  }

  lemma {:induction false} HeadFound(p: string, a: string)
    requires forall c <- p :: c != '/'
    ensures UntilSlash(p + ("/" + a)) == p
  {
    if p == "" {
      assert p + ("/" + a) == "/" + a;
    } else {
      assert p[0] in p;
      forall c <- p[1..]
        ensures c != '/'
      {
        assert c in p;
      }
      HeadFound(p[1..], a);
      assert (p + ("/" + a))[1..] == p[1..] + ("/" + a);
    }
  }

  /** What stands in front of the first slash is the same in equal texts. */
  lemma SameHead(p: string, a: string, q: string, b: string)
    requires p + ("/" + a) == q + ("/" + b)
    requires (forall c <- p :: c != '/') && forall c <- q :: c != '/'
    ensures p == q && a == b
  {
    HeadFound(p, a);
    HeadFound(q, b);
    SameTail(p, "/" + a, q, "/" + b);
    SameTail("/", a, "/", b);
  }

  lemma SameTail(head: string, a: string, same: string, b: string)
    requires head + a == same + b && head == same
    ensures a == b
  {
    assert (head + a)[|head|..] == a && (same + b)[|same|..] == b;
  }

  /** Different sources never share a role, whatever their own roles are. */
  lemma NamespaceSeparates(i: nat, a: string, j: nat, b: string)
    requires Namespaced(i, a) == Namespaced(j, b)
    ensures i == j && a == b
  {
    SameTail("source-", Padded(i + 1) + ("/" + a), "source-", Padded(j + 1) + ("/" + b));
    SameHead(Padded(i + 1), a, Padded(j + 1), b);
    NumberOfPadded(i + 1);
    NumberOfPadded(j + 1);
  }
}
