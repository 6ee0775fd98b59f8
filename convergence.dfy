/// What a run's plan does to the listed records once every operation has
/// been applied, and why it converges: afterwards each configured prefix holds
/// exactly `target` records, and records of no configured prefix are left as
/// they were.
module Convergence {
  import opened Records
  import opened Address
  import opened Reconciler

  /** The position of `records[i]` among the records of `prefix`'s group. */
  function Rank(records: seq<Record>, i: nat, prefix: string): nat
    requires i <= |records|
  {
    |Related(records[..i], prefix)|
  }

  /** The address a record holds after the batch: that of the last update of
      its identifier, or its own when there is none. */
  function ContentAfter(ops: seq<Op>, id: string, content: string): string {
    if ops == [] then content
    else
      var before := ContentAfter(ops[..|ops| - 1], id, content);
      match ops[|ops| - 1]
      case Update(target, updated) => if target == id then updated else before
      case _ => before
  }

  /** What the batch leaves of one listed record: nothing when a delete
      names it, else the record with its updates applied. */
  function Fate(r: Record, ops: seq<Op>): seq<Record> {
    if Delete(r.id) in ops then [] else [Record(r.id, ContentAfter(ops, r.id, r.content))]
  }

  /** The listed records that no delete removes, with their updates applied. */
  function Survivors(records: seq<Record>, ops: seq<Op>): seq<Record> {
    if records == [] then []
    else Survivors(records[..|records| - 1], ops) + Fate(records[|records| - 1], ops)
  }

  /** The records the creates add; the provider names the one created by
      operation `m` `newIds(m)`. */
  function Created(ops: seq<Op>, newIds: nat -> string): seq<Record> {
    if ops == [] then []
    else
      var m := |ops| - 1;
      Created(ops[..m], newIds) + (if ops[m].Create? then [Record(newIds(m), ops[m].content)] else [])
  }

  /** The listed records once every operation of the batch, all issued
      against that same listing, has been applied. */
  function Apply(records: seq<Record>, ops: seq<Op>, newIds: nat -> string): seq<Record> {
    Survivors(records, ops) + Created(ops, newIds)
  }

  /** The number of creates whose address lies in `prefix`'s group. */
  function CreatesIn(ops: seq<Op>, prefix: string): nat {
    if ops == [] then 0
    else
      var op := ops[|ops| - 1];
      CreatesIn(ops[..|ops| - 1], prefix) + (if op.Create? && InGroup(op.content, prefix) then 1 else 0)
  }

  // ---------------------------------------------------------------------
  // Filtering

  lemma {:induction false} RelatedAppend(a: seq<Record>, b: seq<Record>, prefix: string)
    ensures Related(a + b, prefix) == Related(a, prefix) + Related(b, prefix)
    decreases |b|
  {
    if b == [] {
      assert a + b == a;
    } else {
      assert (a + b)[..|a + b| - 1] == a + b[..|b| - 1];
      RelatedAppend(a, b[..|b| - 1], prefix);
    }
  }

  /** A record of the group sits in the filtered list at its rank. */
  lemma RelatedAt(records: seq<Record>, prefix: string, i: nat)
    requires i < |records| && InGroup(records[i].content, prefix)
    ensures Rank(records, i, prefix) < |Related(records, prefix)|
    ensures Related(records, prefix)[Rank(records, i, prefix)] == records[i]
  {
    assert records == records[..i] + [records[i]] + records[i + 1..];
    RelatedAppend(records[..i] + [records[i]], records[i + 1..], prefix);
    RelatedAppend(records[..i], [records[i]], prefix);
    assert Related([records[i]], prefix) == [records[i]] by {
      assert [records[i]][..0] == [];
    }
  }

  /** Every entry of the filtered list is a listed record of the group, at the
      position its rank gives. */
  lemma {:induction false} RelatedSource(records: seq<Record>, prefix: string, j: nat) returns (i: nat)
    requires j < |Related(records, prefix)|
    ensures i < |records| && records[i] == Related(records, prefix)[j]
    ensures InGroup(records[i].content, prefix) && Rank(records, i, prefix) == j
    decreases |records|
  {
    var front := records[..|records| - 1];
    if j < |Related(front, prefix)| {
      i := RelatedSource(front, prefix, j);
      assert front[..i] == records[..i];
    } else {
      i := |records| - 1;
      assert records[..i] == front;
    }
  }

  /** With unique identifiers, an entry of the filtered list that shares an
      identifier with `records[i]` is `records[i]`, at its rank. */
  lemma RelatedIdAt(records: seq<Record>, prefix: string, j: nat, i: nat)
    requires UniqueIds(records)
    requires j < |Related(records, prefix)| && i < |records|
    requires Related(records, prefix)[j].id == records[i].id
    ensures InGroup(records[i].content, prefix) && Rank(records, i, prefix) == j
  {
    var source := RelatedSource(records, prefix, j);
    assert records[source].id == records[i].id;
  }


  // ---------------------------------------------------------------------
  // Which operations of a plan touch a listed record

  /** `records[i]` belongs to `prefix`'s group at a rank of `target` or more. */
  predicate Beyond(records: seq<Record>, i: nat, prefix: string, target: nat)
    requires i < |records|
  {
    InGroup(records[i].content, prefix) && Rank(records, i, prefix) >= target
  }

  /** Some prefix of `prefixes` holds `records[i]` at a rank of `target` or more. */
  predicate BeyondSome(records: seq<Record>, i: nat, prefixes: seq<string>, target: nat)
    requires i < |records|
  {
    exists k :: 0 <= k < |prefixes| && Beyond(records, i, prefixes[k], target)
  }

  /** Some prefix of `prefixes` has both addresses in its group. */
  predicate SameGroup(a: string, b: string, prefixes: seq<string>) {
    exists k :: 0 <= k < |prefixes| && InGroup(a, prefixes[k]) && InGroup(b, prefixes[k])
  }

  /** The layout of one prefix's operations: the deletes of
      `related[target..]`, then the updates of `related[..min(n, target)]` to
      addresses of the prefix, then creates in the prefix, `target` of the
      updates and creates together. */
  predicate Shaped(records: seq<Record>, prefix: string, target: nat, ops: seq<Op>) {
    var related := Related(records, prefix);
    var keep := Min(|related|, target);
    var excess := |related| - keep;
    |ops| == excess + target &&
    (forall j :: 0 <= j < excess ==> ops[j] == Delete(related[keep + j].id)) &&
    (forall j :: excess <= j < |related| ==>
      ops[j].Update? && ops[j].id == related[j - excess].id && InGroup(ops[j].content, prefix)) &&
    (forall j :: |related| <= j < |ops| ==> ops[j].Create? && InGroup(ops[j].content, prefix))
  }

  lemma PrefixPlanShaped(records: seq<Record>, prefix: string, target: nat, random: nat -> Draw, first: nat)
    ensures Shaped(records, prefix, target, PrefixPlan(records, prefix, target, random, first))
  {
    PrefixPlanDeletesAt(records, prefix, target, random, first);
    PrefixPlanUpdatesAt(records, prefix, target, random, first);
    PrefixPlanCreatesAt(records, prefix, target, random, first);
  }

  /** Operations of that layout delete a listed record exactly when the
      record belongs to the group at a rank of `target` or more. */
  lemma ShapedDeletes(records: seq<Record>, prefix: string, target: nat, ops: seq<Op>, i: nat)
    requires UniqueIds(records) && i < |records| && Shaped(records, prefix, target, ops)
    ensures Delete(records[i].id) in ops <==> Beyond(records, i, prefix, target)
  {
    var related := Related(records, prefix);
    var keep := Min(|related|, target);
    var excess := |related| - keep;
    forall j | excess <= j < |ops|
      ensures !ops[j].Delete?
    {
    }
    if Delete(records[i].id) in ops {
      var m :| 0 <= m < |ops| && ops[m] == Delete(records[i].id);
      RelatedIdAt(records, prefix, keep + m, i);
    }
    if Beyond(records, i, prefix, target) {
      RelatedAt(records, prefix, i);
      var m := Rank(records, i, prefix) - keep;
      assert ops[m] == Delete(records[i].id);
    }
  }

  /** Operations of that layout update only listed records of the group, and
      with addresses of the group. */
  lemma ShapedUpdates(records: seq<Record>, prefix: string, target: nat, ops: seq<Op>, i: nat, content: string)
    requires UniqueIds(records) && i < |records| && Shaped(records, prefix, target, ops)
    requires Update(records[i].id, content) in ops
    ensures InGroup(records[i].content, prefix) && InGroup(content, prefix)
  {
    var related := Related(records, prefix);
    var keep := Min(|related|, target);
    var excess := |related| - keep;
    var m :| 0 <= m < |ops| && ops[m] == Update(records[i].id, content);
    assert excess <= m < excess + keep;
    RelatedIdAt(records, prefix, m - excess, i);
  }

  /** One prefix's plan deletes a listed record exactly when the record
      belongs to the group at a rank of `target` or more. */
  lemma PrefixPlanDeletes(records: seq<Record>, prefix: string, target: nat, random: nat -> Draw, first: nat, i: nat)
    requires UniqueIds(records) && i < |records|
    ensures Delete(records[i].id) in PrefixPlan(records, prefix, target, random, first) <==>
      Beyond(records, i, prefix, target)
  {
    PrefixPlanShaped(records, prefix, target, random, first);
    ShapedDeletes(records, prefix, target, PrefixPlan(records, prefix, target, random, first), i);
  }

  /** One prefix's plan updates only listed records of its group, and with
      addresses of that group. */
  lemma PrefixPlanUpdates(records: seq<Record>, prefix: string, target: nat, random: nat -> Draw, first: nat, i: nat, content: string)
    requires UniqueIds(records) && i < |records|
    requires Update(records[i].id, content) in PrefixPlan(records, prefix, target, random, first)
    ensures InGroup(records[i].content, prefix) && InGroup(content, prefix)
  {
    PrefixPlanShaped(records, prefix, target, random, first);
    ShapedUpdates(records, prefix, target, PrefixPlan(records, prefix, target, random, first), i, content);
  }

  /** An operation is in joined lists exactly when it is in one of them. */
  lemma {:induction false} FlattenMember(parts: seq<seq<Op>>, op: Op)
    ensures op in Flatten(parts) <==> exists k :: 0 <= k < |parts| && op in parts[k]
    decreases |parts|
  {
    if parts != [] {
      FlattenMember(parts[..|parts| - 1], op);
      FlattenMemberNext(parts, op);
    }
  }

  lemma FlattenMemberNext(parts: seq<seq<Op>>, op: Op)
    requires parts != []
    requires var front := parts[..|parts| - 1];
      op in Flatten(front) <==> exists k :: 0 <= k < |front| && op in front[k]
    ensures op in Flatten(parts) <==> exists k :: 0 <= k < |parts| && op in parts[k]
  {
    var n := |parts| - 1;
    if exists k :: 0 <= k < |parts| && op in parts[k] {
      var k :| 0 <= k < |parts| && op in parts[k];
      if k < n {
        assert op in parts[..n][k];
      }
    }
  }

  /** A plan deletes a listed record exactly when some of its prefixes holds
      the record at a rank of `target` or more. */
  lemma PlanDeletes(records: seq<Record>, prefixes: seq<string>, target: nat, random: nat -> Draw, i: nat)
    requires UniqueIds(records) && i < |records|
    ensures Delete(records[i].id) in Plan(records, prefixes, target, random) <==>
      BeyondSome(records, i, prefixes, target)
  {
    var parts := Parts(records, prefixes, target, random);
    var op := Delete(records[i].id);
    forall k | 0 <= k < |parts|
      ensures op in parts[k] <==> Beyond(records, i, prefixes[k], target)
    {
      PrefixPlanDeletes(records, prefixes[k], target, random, Scaled(k, target), i);
    }
    FlattenMember(parts, op);
  }

  /** A plan updates a listed record only when one of its prefixes holds the
      record, and then with an address of that prefix. */
  lemma PlanUpdates(records: seq<Record>, prefixes: seq<string>, target: nat, random: nat -> Draw, i: nat, content: string)
    requires UniqueIds(records) && i < |records|
    requires Update(records[i].id, content) in Plan(records, prefixes, target, random)
    ensures SameGroup(records[i].content, content, prefixes)
  {
    var parts := Parts(records, prefixes, target, random);
    FlattenMember(parts, Update(records[i].id, content));
    var k :| 0 <= k < |parts| && Update(records[i].id, content) in parts[k];
    PrefixPlanUpdates(records, prefixes[k], target, random, Scaled(k, target), i, content);
  }

  // ---------------------------------------------------------------------
  // What becomes of one listed record

  /** An address stays in a group when every update of its identifier does. */
  lemma {:induction false} ContentAfterInGroup(ops: seq<Op>, id: string, content: string, prefix: string)
    requires InGroup(content, prefix)
    requires forall m :: 0 <= m < |ops| && ops[m].Update? && ops[m].id == id ==> InGroup(ops[m].content, prefix)
    ensures InGroup(ContentAfter(ops, id, content), prefix)
    decreases |ops|
  {
    if ops != [] {
      ContentAfterInGroup(ops[..|ops| - 1], id, content, prefix);
    }
  }

  /** An address no update names stays as it was. */
  lemma {:induction false} ContentAfterUntouched(ops: seq<Op>, id: string, content: string)
    requires forall m :: 0 <= m < |ops| ==> !(ops[m].Update? && ops[m].id == id)
    ensures ContentAfter(ops, id, content) == content
    decreases |ops|
  {
    if ops != [] {
      ContentAfterUntouched(ops[..|ops| - 1], id, content);
    }
  }

  /** A listed record the batch does not delete is among the survivors, with
      its updates applied. */
  lemma {:induction false} SurvivorKept(records: seq<Record>, ops: seq<Op>, i: nat)
    requires i < |records| && Delete(records[i].id) !in ops
    ensures Record(records[i].id, ContentAfter(ops, records[i].id, records[i].content)) in Survivors(records, ops)
    decreases |records|
  {
    var front := records[..|records| - 1];
    if i < |front| {
      SurvivorKept(front, ops, i);
    }
  }

  /** Every update a run plans for a listed record of a configured prefix's
      group carries an address of that group. */
  lemma UpdatesStayIn(records: seq<Record>, config: Config, random: nat -> Draw, i: nat, prefix: string)
    requires ValidConfig(config) && UniqueIds(records) && i < |records|
    requires prefix in config.prefixes && InGroup(records[i].content, prefix)
    ensures var ops := Plan(records, config.prefixes, config.target, random);
      forall m :: 0 <= m < |ops| && ops[m].Update? && ops[m].id == records[i].id ==> InGroup(ops[m].content, prefix)
  {
    var ps := config.prefixes;
    var ops := Plan(records, ps, config.target, random);
    forall m | 0 <= m < |ops| && ops[m].Update? && ops[m].id == records[i].id
      ensures InGroup(ops[m].content, prefix)
    {
      assert ops[m] == Update(records[i].id, ops[m].content);
      PlanUpdates(records, ps, config.target, random, i, ops[m].content);
      var k :| 0 <= k < |ps| && InGroup(records[i].content, ps[k]) && InGroup(ops[m].content, ps[k]);
      GroupUnique(records[i].content, prefix, ps[k]);
    }
  }

  /** A run plans no update for a listed record of no configured prefix. */
  lemma NoUpdates(records: seq<Record>, config: Config, random: nat -> Draw, i: nat)
    requires UniqueIds(records) && i < |records|
    requires forall k :: 0 <= k < |config.prefixes| ==> !InGroup(records[i].content, config.prefixes[k])
    ensures var ops := Plan(records, config.prefixes, config.target, random);
      forall m :: 0 <= m < |ops| ==> !(ops[m].Update? && ops[m].id == records[i].id)
  {
    var ops := Plan(records, config.prefixes, config.target, random);
    forall m | 0 <= m < |ops|
      ensures !(ops[m].Update? && ops[m].id == records[i].id)
    {
      if ops[m].Update? && ops[m].id == records[i].id {
        assert ops[m] == Update(records[i].id, ops[m].content);
        PlanUpdates(records, config.prefixes, config.target, random, i, ops[m].content);
      }
    }
  }

  // ---------------------------------------------------------------------
  // Counting

  /** One listed record adds one survivor to a configured prefix's group
      exactly when it belongs to the group below rank `target`. */
  lemma FateCount(records: seq<Record>, config: Config, random: nat -> Draw, prefix: string, i: nat)
    requires ValidConfig(config) && UniqueIds(records) && prefix in config.prefixes
    requires i < |records|
    ensures |Related(Fate(records[i], Plan(records, config.prefixes, config.target, random)), prefix)| ==
      if InGroup(records[i].content, prefix) && Rank(records, i, prefix) < config.target then 1 else 0
  {
    var ps := config.prefixes;
    var ops := Plan(records, ps, config.target, random);
    var r := records[i];
    var after := ContentAfter(ops, r.id, r.content);
    PlanDeletes(records, ps, config.target, random, i);
    if InGroup(r.content, prefix) {
      if Delete(r.id) in ops {
        var k :| 0 <= k < |ps| && Beyond(records, i, ps[k], config.target);
        GroupUnique(r.content, prefix, ps[k]);
      } else {
        var k :| 0 <= k < |ps| && ps[k] == prefix;
        assert !Beyond(records, i, ps[k], config.target);
        UpdatesStayIn(records, config, random, i, prefix);
        ContentAfterInGroup(ops, r.id, r.content, prefix);
        assert Related([Record(r.id, after)], prefix) == [Record(r.id, after)] by {
          assert [Record(r.id, after)][..0] == [];
        }
      }
    } else if Delete(r.id) !in ops {
      assert !InGroup(after, prefix) by {
        if exists k :: 0 <= k < |ps| && InGroup(r.content, ps[k]) {
          var k :| 0 <= k < |ps| && InGroup(r.content, ps[k]);
          UpdatesStayIn(records, config, random, i, ps[k]);
          ContentAfterInGroup(ops, r.id, r.content, ps[k]);
          if InGroup(after, prefix) {
            GroupUnique(after, prefix, ps[k]);
          }
        } else {
          NoUpdates(records, config, random, i);
          ContentAfterUntouched(ops, r.id, r.content);
        }
      }
      assert Related([Record(r.id, after)], prefix) == [] by {
        assert [Record(r.id, after)][..0] == [];
      }
    }
  }

  /** When each listed record of a group below rank `target` leaves one
      survivor in the group and every other record none, the survivors of
      `records[..n]` in the group are `min(|group|, target)`. */
  lemma {:induction false} SurvivorsCount(records: seq<Record>, ops: seq<Op>, prefix: string, target: nat, n: nat)
    requires n <= |records|
    requires forall i {:trigger Fate(records[i], ops)} :: 0 <= i < |records| ==>
      |Related(Fate(records[i], ops), prefix)| ==
      (if InGroup(records[i].content, prefix) && Rank(records, i, prefix) < target then 1 else 0)
    ensures |Related(Survivors(records[..n], ops), prefix)| == Min(|Related(records[..n], prefix)|, target)
    decreases n
  {
    if n > 0 {
      var i := n - 1;
      var r := records[i];
      SurvivorsCount(records, ops, prefix, target, i);
      SurvivorsNext(records, ops, prefix, target, n);
    } else {
      assert records[..n] == [];
    }
  }

  lemma SurvivorsNext(records: seq<Record>, ops: seq<Op>, prefix: string, target: nat, n: nat)
    requires 0 < n <= |records|
    requires |Related(Survivors(records[..n - 1], ops), prefix)| == Min(|Related(records[..n - 1], prefix)|, target)
    requires |Related(Fate(records[n - 1], ops), prefix)| ==
      (if InGroup(records[n - 1].content, prefix) && Rank(records, n - 1, prefix) < target then 1 else 0)
    ensures |Related(Survivors(records[..n], ops), prefix)| == Min(|Related(records[..n], prefix)|, target)
  {
    SurvivorsSnoc(records, ops, n);
    SurvivorStep(Survivors(records[..n - 1], ops), Fate(records[n - 1], ops), records[..n - 1], records[n - 1], prefix, target);
  }

  lemma SurvivorsSnoc(records: seq<Record>, ops: seq<Op>, n: nat)
    requires 0 < n <= |records|
    ensures Survivors(records[..n], ops) == Survivors(records[..n - 1], ops) + Fate(records[n - 1], ops)
    ensures records[..n] == records[..n - 1] + [records[n - 1]]
  {
    assert records[..n][..n - 1] == records[..n - 1];
  }

  /** One more listed record: its fate adds one to the group's survivors
      exactly when it adds one to the group below rank `target`. */
  lemma SurvivorStep(kept: seq<Record>, fate: seq<Record>, listed: seq<Record>, r: Record, prefix: string, target: nat)
    requires |Related(kept, prefix)| == Min(|Related(listed, prefix)|, target)
    requires |Related(fate, prefix)| == if InGroup(r.content, prefix) && |Related(listed, prefix)| < target then 1 else 0
    ensures |Related(kept + fate, prefix)| == Min(|Related(listed + [r], prefix)|, target)
  {
    RelatedAppend(kept, fate, prefix);
    RelatedAppend(listed, [r], prefix);
    assert [r][..0] == [];
  }

  lemma {:induction false} CreatedCount(ops: seq<Op>, newIds: nat -> string, prefix: string)
    ensures |Related(Created(ops, newIds), prefix)| == CreatesIn(ops, prefix)
    decreases |ops|
  {
    if ops != [] {
      var m := |ops| - 1;
      CreatedCount(ops[..m], newIds, prefix);
      var tail := if ops[m].Create? then [Record(newIds(m), ops[m].content)] else [];
      RelatedAppend(Created(ops[..m], newIds), tail, prefix);
      if ops[m].Create? {
        assert tail[..0] == [];
      }
    }
  }

  lemma {:induction false} CreatesInAppend(a: seq<Op>, b: seq<Op>, prefix: string)
    ensures CreatesIn(a + b, prefix) == CreatesIn(a, prefix) + CreatesIn(b, prefix)
    decreases |b|
  {
    if b == [] {
      assert a + b == a;
    } else {
      assert (a + b)[..|a + b| - 1] == a + b[..|b| - 1];
      CreatesInAppend(a, b[..|b| - 1], prefix);
    }
  }

  /** Counting creates over operations that are all, or none, creates in the group. */
  lemma {:induction false} CreatesInUniform(ops: seq<Op>, prefix: string, all: bool)
    requires forall m :: 0 <= m < |ops| ==> (ops[m].Create? && InGroup(ops[m].content, prefix)) == all
    ensures CreatesIn(ops, prefix) == if all then |ops| else 0
    decreases |ops|
  {
    if ops != [] {
      CreatesInUniform(ops[..|ops| - 1], prefix, all);
    }
  }

  /** Deletes, then updates, then creates that all lie in the group or all
      outside it. */
  lemma CreatesInOfThree(d: seq<Op>, u: seq<Op>, c: seq<Op>, prefix: string, all: bool)
    requires forall m :: 0 <= m < |d| ==> !d[m].Create?
    requires forall m :: 0 <= m < |u| ==> !u[m].Create?
    requires forall m :: 0 <= m < |c| ==> c[m].Create? && InGroup(c[m].content, prefix) == all
    ensures CreatesIn(d + u + c, prefix) == if all then |c| else 0
  {
    CreatesInAppend(d + u, c, prefix);
    CreatesInAppend(d, u, prefix);
    CreatesInUniform(d, prefix, false);
    CreatesInUniform(u, prefix, false);
    CreatesInUniform(c, prefix, all);
  }

  /** The number of records a group lacks to reach `target`. */
  function Missing(records: seq<Record>, prefix: string, target: nat): nat {
    Split(Related(records, prefix), target).missing
  }

  /** One prefix's plan creates, in `prefix`'s group, the records the group
      misses when it is that prefix, and none otherwise. */
  lemma PrefixPlanCreatesIn(records: seq<Record>, planned: string, target: nat, random: nat -> Draw, first: nat, prefix: string)
    requires ThreeOctets(planned) && ThreeOctets(prefix)
    ensures CreatesIn(PrefixPlan(records, planned, target, random, first), prefix) ==
      if planned == prefix then Missing(records, prefix, target) else 0
  {
    var g := Split(Related(records, planned), target);
    var d := Deletes(g.dropped);
    var u := Updates(g.kept, planned, random, first);
    var c := Creates(g.missing, planned, random, first + |g.kept|);
    assert PrefixPlan(records, planned, target, random, first) == d + u + c;
    forall m | 0 <= m < |c|
      ensures c[m].Create? && InGroup(c[m].content, prefix) == (planned == prefix)
    {
      RandIpStaysInGroup(planned, prefix, random(first + |g.kept| + m));
    }
    CreatesInOfThree(d, u, c, prefix, planned == prefix);
  }

  /** Joined lists where only part `at` has creates in the group, `v` of them. */
  lemma {:induction false} CreatesInFlatten(parts: seq<seq<Op>>, prefix: string, at: nat, v: nat)
    requires forall k :: 0 <= k < |parts| ==> CreatesIn(parts[k], prefix) == if k == at then v else 0
    ensures CreatesIn(Flatten(parts), prefix) == if at < |parts| then v else 0
    decreases |parts|
  {
    if parts != [] {
      var n := |parts| - 1;
      CreatesInFlatten(parts[..n], prefix, at, v);
      CreatesInAppend(Flatten(parts[..n]), parts[n], prefix);
    }
  }

  /** A plan over distinct three-octet prefixes creates, in a group of one of
      them, exactly the records the group misses, and none in any other group. */
  lemma PlanCreatesIn(records: seq<Record>, prefixes: seq<string>, target: nat, random: nat -> Draw, prefix: string)
    requires forall k :: 0 <= k < |prefixes| ==> ThreeOctets(prefixes[k])
    requires forall k, l :: 0 <= k < l < |prefixes| ==> prefixes[k] != prefixes[l]
    requires ThreeOctets(prefix)
    ensures CreatesIn(Plan(records, prefixes, target, random), prefix) ==
      if prefix in prefixes then Missing(records, prefix, target) else 0
  {
    var parts := Parts(records, prefixes, target, random);
    var at: nat := |prefixes|;
    if prefix in prefixes {
      var k :| 0 <= k < |prefixes| && prefixes[k] == prefix;
      at := k;
    }
    forall k | 0 <= k < |parts|
      ensures CreatesIn(parts[k], prefix) == if k == at then Missing(records, prefix, target) else 0
    {
      PrefixPlanCreatesIn(records, prefixes[k], target, random, Scaled(k, target), prefix);
    }
    CreatesInFlatten(parts, prefix, at, Missing(records, prefix, target));
  }

  // ---------------------------------------------------------------------
  // Convergence

  /** After a run's plan is fully applied, every configured prefix holds
      exactly `target` records, and every listed record of no configured
      prefix is still there unchanged. */
  lemma Converges(records: seq<Record>, config: Config, random: nat -> Draw, newIds: nat -> string)
    requires ValidConfig(config) && UniqueIds(records)
    ensures var after := Apply(records, Plan(records, config.prefixes, config.target, random), newIds);
      (forall p :: p in config.prefixes ==> |Related(after, p)| == config.target) &&
      (forall i :: 0 <= i < |records| && (forall p :: p in config.prefixes ==> !InGroup(records[i].content, p)) ==>
        records[i] in after)
  {
    var ops := Plan(records, config.prefixes, config.target, random);
    var after := Apply(records, ops, newIds);
    forall p | p in config.prefixes
      ensures |Related(after, p)| == config.target
    {
      ConvergesAt(records, config, random, newIds, p);
    }
    forall i | 0 <= i < |records| && (forall p :: p in config.prefixes ==> !InGroup(records[i].content, p))
      ensures records[i] in after
    {
      Untouched(records, config, random, i);
      SurvivorKept(records, ops, i);
    }
  }

  lemma ConvergesAt(records: seq<Record>, config: Config, random: nat -> Draw, newIds: nat -> string, prefix: string)
    requires ValidConfig(config) && UniqueIds(records) && prefix in config.prefixes
    ensures |Related(Apply(records, Plan(records, config.prefixes, config.target, random), newIds), prefix)| == config.target
  {
    var ops := Plan(records, config.prefixes, config.target, random);
    var k :| 0 <= k < |config.prefixes| && config.prefixes[k] == prefix;
    forall i | 0 <= i < |records|
      ensures |Related(Fate(records[i], ops), prefix)| ==
        if InGroup(records[i].content, prefix) && Rank(records, i, prefix) < config.target then 1 else 0
    {
      FateCount(records, config, random, prefix, i);
    }
    SurvivorsCount(records, ops, prefix, config.target, |records|);
    assert records[..|records|] == records;
    CreatedCount(ops, newIds, prefix);
    PlanCreatesIn(records, config.prefixes, config.target, random, prefix);
    RelatedAppend(Survivors(records, ops), Created(ops, newIds), prefix);
  }

  /** A listed record of no configured prefix is neither deleted nor updated. */
  lemma Untouched(records: seq<Record>, config: Config, random: nat -> Draw, i: nat)
    requires UniqueIds(records) && i < |records|
    requires forall p :: p in config.prefixes ==> !InGroup(records[i].content, p)
    ensures var ops := Plan(records, config.prefixes, config.target, random);
      Delete(records[i].id) !in ops &&
      (forall c :: Update(records[i].id, c) !in ops) &&
      ContentAfter(ops, records[i].id, records[i].content) == records[i].content
  {
    var ps := config.prefixes;
    var ops := Plan(records, ps, config.target, random);
    PlanDeletes(records, ps, config.target, random, i);
    forall c ensures Update(records[i].id, c) !in ops {
      if Update(records[i].id, c) in ops {
        PlanUpdates(records, ps, config.target, random, i, c);
      }
    }
    NoUpdates(records, config, random, i);
    ContentAfterUntouched(ops, records[i].id, records[i].content);
  }

  /** Joined lists each holding `each` operations of a kind hold `each` per part. */
  lemma {:induction false} TallyFlattenEach(parts: seq<seq<Op>>, kind: Kind, each: nat)
    requires forall k :: 0 <= k < |parts| ==> Tally(parts[k], kind) == each
    ensures Tally(Flatten(parts), kind) == Scaled(|parts|, each)
    decreases |parts|
  {
    if parts != [] {
      var n := |parts| - 1;
      TallyFlattenEach(parts[..n], kind, each);
      TallyAppend(Flatten(parts[..n]), parts[n], kind);
    }
  }

  /** A listing that already has `target` records in each group gets only
      updates: no delete, no create, `target` updates per prefix. */
  lemma SteadyState(records: seq<Record>, config: Config, random: nat -> Draw)
    requires forall p :: p in config.prefixes ==> |Related(records, p)| == config.target
    ensures var ops := Plan(records, config.prefixes, config.target, random);
      Tally(ops, Deleting) == 0 && Tally(ops, Creating) == 0 &&
      Tally(ops, Updating) == |config.prefixes| * config.target
  {
    var ps, target := config.prefixes, config.target;
    var parts := Parts(records, ps, target, random);
    forall k | 0 <= k < |parts|
      ensures Tally(parts[k], Deleting) == 0 && Tally(parts[k], Creating) == 0
      ensures Tally(parts[k], Updating) == target
    {
      assert ps[k] in ps;
      PrefixPlanCounts(records, ps[k], target, random, Scaled(k, target));
    }
    TallyFlattenEach(parts, Deleting, 0);
    TallyFlattenEach(parts, Creating, 0);
    TallyFlattenEach(parts, Updating, target);
    ScaledIsProduct(|ps|, 0);
    ScaledIsProduct(|ps|, target);
  }

  /** Running again on the converged records, once the provider lists them
      under distinct identifiers, keeps every configured prefix at `target`. */
  lemma SecondRunKeepsShape(records: seq<Record>, config: Config, random: nat -> Draw, newIds: nat -> string,
                             random': nat -> Draw, newIds': nat -> string)
    requires ValidConfig(config) && UniqueIds(records)
    requires UniqueIds(Apply(records, Plan(records, config.prefixes, config.target, random), newIds))
    ensures var first := Apply(records, Plan(records, config.prefixes, config.target, random), newIds);
      var second := Apply(first, Plan(first, config.prefixes, config.target, random'), newIds');
      forall p :: p in config.prefixes ==> |Related(second, p)| == |Related(first, p)| == config.target
  {
    var first := Apply(records, Plan(records, config.prefixes, config.target, random), newIds);
    Converges(records, config, random, newIds);
    Converges(first, config, random', newIds');
  }
}
