/// DNS "A" records as the provider lists them, the reconciler's configuration,
/// and what it means for a record to belong to an address prefix.
module Records {

  /** An "A" record as the provider lists it: its identifier and its address. */
  datatype Record = Record(id: string, content: string)

  /** The prefixes (first three octets) to keep populated and the number of
      records wanted behind each of them. */
  datatype Config = Config(prefixes: seq<string>, target: nat)

  const DeployedPrefixes: seq<string> := [
    "108.162.198",
    "162.159.44",
    "172.64.229",
    "162.159.45",
    "162.159.38",
    "162.159.39",
    "172.64.52"
  ]

  const DeployedTarget: nat := 5

  const Deployed: Config := Config(DeployedPrefixes, DeployedTarget)

  function Min(a: int, b: int): int { if a <= b then a else b }

  predicate StartsWith(s: string, p: string) {
    |p| <= |s| && s[..|p|] == p
  }

  /** A record belongs to a prefix when its address starts with the prefix and a dot. */
  predicate InGroup(content: string, prefix: string) {
    StartsWith(content, prefix + ".")
  }

  function DotCount(s: string): (n: nat)
    ensures n <= |s|
  {
    if s == [] then 0
    else DotCount(s[..|s| - 1]) + (if s[|s| - 1] == '.' then 1 else 0)
  }

  /** Three octets joined by dots hold exactly two dots; that is the only feature
      of a configured prefix the grouping relies on. */
  predicate ThreeOctets(p: string) {
    DotCount(p) == 2
  }

  predicate ValidConfig(c: Config) {
    (forall i :: 0 <= i < |c.prefixes| ==> ThreeOctets(c.prefixes[i])) &&
    (forall i, j :: 0 <= i < j < |c.prefixes| ==> c.prefixes[i] != c.prefixes[j])
  }

  /** The provider never lists two records under one identifier. */
  predicate UniqueIds(records: seq<Record>) {
    forall i, j :: 0 <= i < j < |records| ==> records[i].id != records[j].id
  }

  lemma {:induction false} DotCountAppend(a: string, b: string)
    ensures DotCount(a + b) == DotCount(a) + DotCount(b)
    decreases |b|
  {
    if b != [] {
      var n := |b| - 1;
      assert (a + b)[..|a + b| - 1] == a + b[..n];
      DotCountAppend(a, b[..n]);
    } else {
      assert a + b == a;
    }
  }

  lemma DotCountOfTake(s: string, k: nat)
    requires k <= |s|
    ensures DotCount(s[..k]) <= DotCount(s)
  {
    assert s == s[..k] + s[k..];
    DotCountAppend(s[..k], s[k..]);
  }

  /** A string starts with `p + "."` for at most one three-octet prefix `p`:
      the groups of distinct configured prefixes never overlap. */
  lemma {:induction false} GroupUnique(content: string, p: string, q: string)
    requires ThreeOctets(p) && ThreeOctets(q)
    requires InGroup(content, p) && InGroup(content, q)
    ensures p == q
  {
    if |p| < |q| {
      ShorterGroupDots(content, p, q);
    } else if |q| < |p| {
      ShorterGroupDots(content, q, p);
    } else {
      assert p == (p + ".")[..|p|] == content[..|p|];
      assert q == (q + ".")[..|q|] == content[..|q|];
    }
  }

  /** A shorter group prefix of the same address is a prefix of the longer one, dot included. */
  lemma ShorterGroupDots(content: string, p: string, q: string)
    requires |p| < |q|
    requires InGroup(content, p) && InGroup(content, q)
    ensures DotCount(p) + 1 <= DotCount(q)
  {
    var k := |p| + 1;
    assert q[..k] == (q + ".")[..k] == content[..k] == p + ".";
    DotCountOfTake(q, k);
    DotCountAppend(p, ".");
    assert DotCount(".") == 1 by {
      assert "."[..0] == [];
    }
  }

  lemma DottedTriple(a: string, b: string, c: string)
    requires DotCount(a) == 0 && DotCount(b) == 0 && DotCount(c) == 0
    ensures ThreeOctets(a + "." + b + "." + c)
  {
    assert DotCount(".") == 1 by {
      assert "."[..0] == [];
    }
    DotCountAppend(a, ".");
    DotCountAppend(a + ".", b);
    DotCountAppend(a + "." + b, ".");
    DotCountAppend(a + "." + b + ".", c);
  }

  lemma NoDots(s: string)
    requires forall i :: 0 <= i < |s| ==> s[i] != '.'
    ensures DotCount(s) == 0
  {
    if s != [] {
      NoDots(s[..|s| - 1]);
    }
  }

  /** Three dot-free octets joined by dots make a three-octet prefix. */
  lemma OctetsOf(p: string, a: string, b: string, c: string)
    requires p == a + "." + b + "." + c
    requires forall i :: 0 <= i < |a| ==> a[i] != '.'
    requires forall i :: 0 <= i < |b| ==> b[i] != '.'
    requires forall i :: 0 <= i < |c| ==> c[i] != '.'
    ensures ThreeOctets(p)
  {
    NoDots(a);
    NoDots(b);
    NoDots(c);
    DottedTriple(a, b, c);
  }

  lemma DeployedOctets()
    ensures forall i :: 0 <= i < |DeployedPrefixes| ==> ThreeOctets(DeployedPrefixes[i])
  {
    var ps := DeployedPrefixes;
    OctetsOf(ps[0], "108", "162", "198");
    OctetsOf(ps[1], "162", "159", "44");
    OctetsOf(ps[2], "172", "64", "229");
    OctetsOf(ps[3], "162", "159", "45");
    OctetsOf(ps[4], "162", "159", "38");
    OctetsOf(ps[5], "162", "159", "39");
    OctetsOf(ps[6], "172", "64", "52");
  }

  lemma DeployedDistinct()
    ensures forall i, j :: 0 <= i < j < |DeployedPrefixes| ==> DeployedPrefixes[i] != DeployedPrefixes[j]
  {
    var ps := DeployedPrefixes;
    forall i, j | 0 <= i < j < |ps| ensures ps[i] != ps[j] {
      assert ps[i][0] != ps[j][0] || ps[i][4] != ps[j][4] || ps[i][|ps[i]| - 1] != ps[j][|ps[j]| - 1]
        || |ps[i]| != |ps[j]|;
    }
  }

  /** The deployed configuration: seven distinct three-octet prefixes. */
  lemma DeployedIsValid()
    ensures ValidConfig(Deployed)
  {
    DeployedOctets();
    DeployedDistinct();
  }
}
