/// The reconciler (`updateDns`): per prefix, split the listed records of that
/// prefix into the ones kept and the ones in excess, plan a delete per excess
/// record, an update with a fresh address per kept record and a create per
/// missing record, then dispatch every planned operation and count it in the
/// run's report.
module Reconciler {
  import opened Records
  import opened Address
  import opened ApiClient

  datatype Op = Delete(id: string) | Update(id: string, content: string) | Create(content: string)

  datatype Kind = Deleting | Updating | Creating

  function KindOf(op: Op): Kind {
    match op
    case Delete(_) => Deleting
    case Update(_, _) => Updating
    case Create(_) => Creating
  }

  /** The tag a failed operation's error message carries in the report. */
  function Tag(op: Op): string {
    match op
    case Delete(_) => "delete"
    case Update(_, _) => "update"
    case Create(_) => "create"
  }

  /** The number of operations of one kind. */
  function Tally(ops: seq<Op>, kind: Kind): (n: nat)
    ensures n <= |ops|
  {
    if ops == [] then 0
    else Tally(ops[..|ops| - 1], kind) + (if KindOf(ops[|ops| - 1]) == kind then 1 else 0)
  }

  lemma {:induction false} TallyAppend(a: seq<Op>, b: seq<Op>, kind: Kind)
    ensures Tally(a + b, kind) == Tally(a, kind) + Tally(b, kind)
    decreases |b|
  {
    if b == [] {
      assert a + b == a;
    } else {
      assert (a + b)[..|a + b| - 1] == a + b[..|b| - 1];
      TallyAppend(a, b[..|b| - 1], kind);
    }
  }

  /** Operations all of one kind are tallied under that kind and no other. */
  lemma {:induction false} TallyUniform(ops: seq<Op>, kind: Kind, other: Kind)
    requires forall j :: 0 <= j < |ops| ==> KindOf(ops[j]) == kind
    ensures Tally(ops, other) == if other == kind then |ops| else 0
    decreases |ops|
  {
    if ops != [] {
      TallyUniform(ops[..|ops| - 1], kind, other);
    }
  }

  /** `allRecords.filter(r => r.content.startsWith(prefix + "."))`: the records
      of the prefix's group, in listing order. */
  function Related(records: seq<Record>, prefix: string): (related: seq<Record>)
    ensures |related| <= |records|
    ensures forall j :: 0 <= j < |related| ==> InGroup(related[j].content, prefix)
  {
    if records == [] then []
    else
      var last := records[|records| - 1];
      Related(records[..|records| - 1], prefix) + (if InGroup(last.content, prefix) then [last] else [])
  }

  /** How the records of one group are divided: those kept, those in excess,
      and how many are missing. */
  datatype Partition = Partition(kept: seq<Record>, dropped: seq<Record>, missing: nat)

  /** Keep the first `target` records of the group and drop the rest. */
  function Split(related: seq<Record>, target: nat): (g: Partition)
    ensures g.kept + g.dropped == related
    ensures |g.kept| == Min(|related|, target) && |g.kept| + g.missing == target
    ensures |g.dropped| == Dropped(|related|, target)
  {
    if |related| > target then Partition(related[..target], related[target..], 0)
    else Partition(related, [], target - |related|)
  }

  function Deletes(dropped: seq<Record>): seq<Op> {
    seq(|dropped|, j requires 0 <= j < |dropped| => Delete(dropped[j].id))
  }

  /** Updates of the kept records, the `j`-th with the address of draw `first + j`. */
  function Updates(kept: seq<Record>, prefix: string, random: nat -> Draw, first: nat): seq<Op> {
    seq(|kept|, j requires 0 <= j < |kept| => Update(kept[j].id, RandIp(prefix, random(first + j))))
  }

  /** `count` creates, the `j`-th with the address of draw `first + j`. */
  function Creates(count: nat, prefix: string, random: nat -> Draw, first: nat): seq<Op> {
    seq(count, j requires 0 <= j < count => Create(RandIp(prefix, random(first + j))))
  }

  lemma DeletesSnoc(dropped: seq<Record>, j: nat)
    requires j < |dropped|
    ensures Deletes(dropped[..j + 1]) == Deletes(dropped[..j]) + [Delete(dropped[j].id)]
  {
    var a, b := Deletes(dropped[..j + 1]), Deletes(dropped[..j]) + [Delete(dropped[j].id)];
    forall k | 0 <= k < j + 1 ensures a[k] == b[k] {
    }
  }

  lemma UpdatesSnoc(kept: seq<Record>, prefix: string, random: nat -> Draw, first: nat, j: nat)
    requires j < |kept|
    ensures Updates(kept[..j + 1], prefix, random, first) ==
      Updates(kept[..j], prefix, random, first) + [Update(kept[j].id, RandIp(prefix, random(first + j)))]
  {
    var a := Updates(kept[..j + 1], prefix, random, first);
    var b := Updates(kept[..j], prefix, random, first) + [Update(kept[j].id, RandIp(prefix, random(first + j)))];
    forall k | 0 <= k < j + 1 ensures a[k] == b[k] {
    }
  }

  lemma CreatesSnoc(count: nat, prefix: string, random: nat -> Draw, first: nat)
    ensures Creates(count + 1, prefix, random, first) ==
      Creates(count, prefix, random, first) + [Create(RandIp(prefix, random(first + count)))]
  {
    var a := Creates(count + 1, prefix, random, first);
    var b := Creates(count, prefix, random, first) + [Create(RandIp(prefix, random(first + count)))];
    forall k | 0 <= k < count + 1 ensures a[k] == b[k] {
    }
  }

  /** The operations planned for one prefix, in the order they are pushed;
      `first` is the number of random draws made before this prefix. */
  function PrefixPlan(records: seq<Record>, prefix: string, target: nat, random: nat -> Draw, first: nat): seq<Op> {
    var g := Split(Related(records, prefix), target);
    Deletes(g.dropped) + Updates(g.kept, prefix, random, first) + Creates(g.missing, prefix, random, first + |g.kept|)
  }

  /** Operation lists joined in order. */
  function Flatten(parts: seq<seq<Op>>): (ops: seq<Op>) {
    if parts == [] then [] else Flatten(parts[..|parts| - 1]) + parts[|parts| - 1]
  }

  lemma FlattenSnoc(parts: seq<seq<Op>>, p: nat)
    requires p < |parts|
    ensures Flatten(parts[..p + 1]) == Flatten(parts[..p]) + parts[p]
  {
    assert parts[..p + 1][..p] == parts[..p];
  }

  /** `count` prefixes' worth of `target`, added up one prefix at a time. */
  function Scaled(count: nat, target: nat): nat {
    if count == 0 then 0 else Scaled(count - 1, target) + target
  }

  /** Each configured prefix's operations; every prefix draws `target`
      addresses, so the `k`-th draws after `Scaled(k, target)` draws. */
  function Parts(records: seq<Record>, prefixes: seq<string>, target: nat, random: nat -> Draw): (parts: seq<seq<Op>>)
    ensures |parts| == |prefixes|
  {
    seq(|prefixes|, k requires 0 <= k < |prefixes| => PrefixPlan(records, prefixes[k], target, random, Scaled(k, target)))
  }

  /** The operations planned for a run, prefix after prefix. */
  function Plan(records: seq<Record>, prefixes: seq<string>, target: nat, random: nat -> Draw): seq<Op> {
    Flatten(Parts(records, prefixes, target, random))
  }

  /** How a dispatched operation's promise settles. */
  datatype Settlement = Resolved(reply: Reply) | Rejected(message: string)

  /** The run report: `{ deleted, updated, created, errors }`. */
  class Stats {
    var deleted: nat
    var updated: nat
    var created: nat
    var errors: seq<string>

    constructor ()
      ensures deleted == 0 && updated == 0 && created == 0 && errors == []
    {
      deleted, updated, created, errors := 0, 0, 0, [];
    }

    /** The `.then` and `.catch` handlers attached to one operation: a
        resolved operation is counted under its kind whatever its reply says,
        a rejected one appends its tagged message. */
    method Settle(op: Op, settlement: Settlement)
      modifies this
      ensures settlement.Resolved? ==>
        deleted == old(deleted) + (if op.Delete? then 1 else 0) &&
        updated == old(updated) + (if op.Update? then 1 else 0) &&
        created == old(created) + (if op.Create? then 1 else 0) &&
        errors == old(errors)
      ensures settlement.Rejected? ==>
        deleted == old(deleted) && updated == old(updated) && created == old(created) &&
        errors == old(errors) + [Tag(op) + ": " + settlement.message]
    {
      match settlement
      case Resolved(_) =>
        match op {
          case Delete(_) => deleted := deleted + 1;
          case Update(_, _) => updated := updated + 1;
          case Create(_) => created := created + 1;
        }
      case Rejected(message) =>
        errors := errors + [Tag(op) + ": " + message];
    }
  }

  /** Dispatch every task through the API client (task `i` meets the attempt
      outcomes `network(i)`) and settle it into the report. The client never
      rejects, so every task is counted under its kind and no error is added. */
  method Dispatch(tasks: seq<Op>, network: nat -> nat -> Attempt, stats: Stats)
    modifies stats
    ensures stats.deleted == old(stats.deleted) + Tally(tasks, Deleting)
    ensures stats.updated == old(stats.updated) + Tally(tasks, Updating)
    ensures stats.created == old(stats.created) + Tally(tasks, Creating)
    ensures stats.errors == old(stats.errors)
  {
    for i := 0 to |tasks|
      invariant stats.deleted == old(stats.deleted) + Tally(tasks[..i], Deleting)
      invariant stats.updated == old(stats.updated) + Tally(tasks[..i], Updating)
      invariant stats.created == old(stats.created) + Tally(tasks[..i], Creating)
      invariant stats.errors == old(stats.errors)
    {
      var reply, attempts, sleeps := CallApi(network(i), 0);
      stats.Settle(tasks[i], Resolved(reply));
      assert tasks[..i + 1][..i] == tasks[..i];
    }
    assert tasks[..|tasks|] == tasks;
  }

  /** Push a delete for each excess record. */
  method PushDeletes(excess: seq<Record>, tasks: seq<Op>) returns (tasks': seq<Op>)
    ensures tasks' == tasks + Deletes(excess)
  {
    tasks' := tasks;
    for j := 0 to |excess|
      invariant tasks' == tasks + Deletes(excess[..j])
    {
      DeletesSnoc(excess, j);
      tasks' := tasks' + [Delete(excess[j].id)];
    }
    assert excess[..|excess|] == excess;
  }

  /** Push an update with a freshly drawn address for each kept record. */
  method PushUpdates(related: seq<Record>, prefix: string, random: nat -> Draw, drawn: nat, tasks: seq<Op>)
    returns (tasks': seq<Op>, drawn': nat)
    ensures tasks' == tasks + Updates(related, prefix, random, drawn)
    ensures drawn' == drawn + |related|
  {
    tasks', drawn' := tasks, drawn;
    for j := 0 to |related|
      invariant tasks' == tasks + Updates(related[..j], prefix, random, drawn)
      invariant drawn' == drawn + j
    {
      UpdatesSnoc(related, prefix, random, drawn, j);
      tasks' := tasks' + [Update(related[j].id, RandIp(prefix, random(drawn')))];
      drawn' := drawn' + 1;
    }
    assert related[..|related|] == related;
  }

  /** Push `need` creates, each with a freshly drawn address. */
  method PushCreates(need: nat, prefix: string, random: nat -> Draw, drawn: nat, tasks: seq<Op>)
    returns (tasks': seq<Op>, drawn': nat)
    ensures tasks' == tasks + Creates(need, prefix, random, drawn)
    ensures drawn' == drawn + need
  {
    tasks', drawn' := tasks, drawn;
    for i := 0 to need
      invariant tasks' == tasks + Creates(i, prefix, random, drawn)
      invariant drawn' == drawn + i
    {
      CreatesSnoc(i, prefix, random, drawn);
      tasks' := tasks' + [Create(RandIp(prefix, random(drawn')))];
      drawn' := drawn' + 1;
    }
  }

  /** The body of `updateDns`'s loop for one prefix: push the deletes of the
      excess records, trim the group to `target`, push an update per kept
      record and a create per missing one, drawing an address for each. */
  method PushPrefixOps(all: seq<Record>, prefix: string, target: nat, random: nat -> Draw, drawn: nat, tasks: seq<Op>)
    returns (tasks': seq<Op>, drawn': nat)
    ensures tasks' == tasks + PrefixPlan(all, prefix, target, random, drawn)
    ensures drawn' == drawn + target
  {
    var related := Related(all, prefix);
    ghost var g := Split(related, target);
    tasks' := tasks;
    if |related| > target {
      tasks' := PushDeletes(related[target..], tasks');
      related := related[..target];
    }
    assert tasks' == tasks + Deletes(g.dropped) && related == g.kept;
    ghost var afterDeletes := tasks';
    tasks', drawn' := PushUpdates(related, prefix, random, drawn, tasks');
    var need := target - |related|;
    ghost var afterUpdates := tasks';
    tasks', drawn' := PushCreates(need, prefix, random, drawn', tasks');
    assert tasks' == tasks + Deletes(g.dropped) + Updates(g.kept, prefix, random, drawn) +
      Creates(g.missing, prefix, random, drawn + |g.kept|);
  }

  /** `updateDns`'s loop over the configured prefixes, in order; the `i`-th
      call of `Math.random` in the run draws `random(i)`. */
  method PlanRun(all: seq<Record>, config: Config, random: nat -> Draw) returns (tasks: seq<Op>)
    ensures tasks == Plan(all, config.prefixes, config.target, random)
  {
    var prefixes := config.prefixes;
    ghost var parts := Parts(all, prefixes, config.target, random);
    tasks := [];
    var drawn: nat := 0;
    for p := 0 to |prefixes|
      invariant tasks == Flatten(parts[..p])
      invariant drawn == Scaled(p, config.target)
    {
      tasks, drawn := PushPrefixOps(all, prefixes[p], config.target, random, drawn, tasks);
      FlattenSnoc(parts, p);
    }
    assert parts[..|prefixes|] == parts;
  }

  /** `updateDns`: list the records, plan the operations, dispatch them, and
      report. Each counter ends equal to the number of operations of its kind
      that were planned, and the error list stays empty. */
  method UpdateDns(config: Config, listing: nat -> Attempt, random: nat -> Draw, network: nat -> nat -> Attempt)
    returns (tasks: seq<Op>, stats: Stats)
    ensures fresh(stats)
    ensures tasks == Plan(ListedRecords(CallFrom(listing, 0).reply), config.prefixes, config.target, random)
    ensures stats.deleted == Tally(tasks, Deleting)
    ensures stats.updated == Tally(tasks, Updating)
    ensures stats.created == Tally(tasks, Creating)
    ensures stats.errors == []
  {
    var all := GetRecords(listing);
    stats := new Stats();
    tasks := PlanRun(all, config, random);
    Dispatch(tasks, network, stats);
  }

  /** The operations planned for one prefix start with a delete of each
      record of `related[target..]`, in listing order, and number one per
      excess record plus `target`. */
  lemma PrefixPlanDeletesAt(records: seq<Record>, prefix: string, target: nat, random: nat -> Draw, first: nat)
    ensures var ops := PrefixPlan(records, prefix, target, random, first);
      var related := Related(records, prefix);
      var keep := Min(|related|, target);
      |ops| == |related| - keep + target &&
      forall j :: 0 <= j < |related| - keep ==> ops[j] == Delete(related[keep + j].id)
  {
    var related := Related(records, prefix);
    var g := Split(related, target);
    var d := Deletes(g.dropped);
    var ops := d + Updates(g.kept, prefix, random, first) + Creates(g.missing, prefix, random, first + |g.kept|);
    assert ops == PrefixPlan(records, prefix, target, random, first);
    var keep := |g.kept|;
    assert g.dropped == related[keep..] by {
      assert related == g.kept + g.dropped;
    }
    forall j | 0 <= j < |g.dropped|
      ensures ops[j] == Delete(related[keep + j].id)
    {
      assert ops[j] == d[j];
    }
  }

  /** After the deletes, the records of `related[..min(|related|, target)]`
      are updated in listing order, each to an address of the prefix. */
  lemma PrefixPlanUpdatesAt(records: seq<Record>, prefix: string, target: nat, random: nat -> Draw, first: nat)
    ensures var ops := PrefixPlan(records, prefix, target, random, first);
      var related := Related(records, prefix);
      var keep := Min(|related|, target);
      var excess := |related| - keep;
      |related| <= |ops| &&
      forall j :: excess <= j < |related| ==>
        ops[j].Update? && ops[j].id == related[j - excess].id && InGroup(ops[j].content, prefix)
  {
    var related := Related(records, prefix);
    var g := Split(related, target);
    var u := Updates(g.kept, prefix, random, first);
    var ops := Deletes(g.dropped) + u + Creates(g.missing, prefix, random, first + |g.kept|);
    assert ops == PrefixPlan(records, prefix, target, random, first);
    var excess := |g.dropped|;
    assert g.kept == related[..|g.kept|] by {
      assert related == g.kept + g.dropped;
    }
    forall j | excess <= j < |related|
      ensures ops[j].Update? && ops[j].id == related[j - excess].id && InGroup(ops[j].content, prefix)
    {
      assert ops[j] == u[j - excess];
    }
  }

  /** The rest of the operations create records with addresses of the prefix. */
  lemma PrefixPlanCreatesAt(records: seq<Record>, prefix: string, target: nat, random: nat -> Draw, first: nat)
    ensures var ops := PrefixPlan(records, prefix, target, random, first);
      var related := Related(records, prefix);
      forall j :: |related| <= j < |ops| ==> ops[j].Create? && InGroup(ops[j].content, prefix)
  {
    var related := Related(records, prefix);
    var g := Split(related, target);
    var c := Creates(g.missing, prefix, random, first + |g.kept|);
    var ops := Deletes(g.dropped) + Updates(g.kept, prefix, random, first) + c;
    assert ops == PrefixPlan(records, prefix, target, random, first);
    forall j | |related| <= j < |ops|
      ensures ops[j].Create? && InGroup(ops[j].content, prefix)
    {
      var k := j - |related|;
      assert ops[j] == c[k];
      assert c[k] == Create(RandIp(prefix, random(first + |g.kept| + k)));
    }
  }

  /** The counting laws of one prefix: `max(|related| - target, 0)` deletes,
      `target` updates and creates together, no create once `target` records
      exist, and with a target of zero every record of the group deleted. */
  lemma PrefixPlanCounts(records: seq<Record>, prefix: string, target: nat, random: nat -> Draw, first: nat)
    ensures var ops := PrefixPlan(records, prefix, target, random, first);
      var n := |Related(records, prefix)|;
      Tally(ops, Deleting) == Dropped(n, target) &&
      Tally(ops, Updating) == Min(n, target) &&
      Tally(ops, Updating) + Tally(ops, Creating) == target &&
      (n >= target ==> Tally(ops, Creating) == 0) &&
      (target == 0 ==> Tally(ops, Deleting) == n && Tally(ops, Updating) == 0 && Tally(ops, Creating) == 0)
  {
    var g := Split(Related(records, prefix), target);
    var d := Deletes(g.dropped);
    var u := Updates(g.kept, prefix, random, first);
    var c := Creates(g.missing, prefix, random, first + |g.kept|);
    assert PrefixPlan(records, prefix, target, random, first) == d + u + c;
    TallyOfKinds(d, u, c, Deleting);
    TallyOfKinds(d, u, c, Updating);
    TallyOfKinds(d, u, c, Creating);
  }

  /** Deletes, then updates, then creates: each kind is counted in its own run. */
  lemma TallyOfKinds(d: seq<Op>, u: seq<Op>, c: seq<Op>, kind: Kind)
    requires forall j :: 0 <= j < |d| ==> KindOf(d[j]) == Deleting
    requires forall j :: 0 <= j < |u| ==> KindOf(u[j]) == Updating
    requires forall j :: 0 <= j < |c| ==> KindOf(c[j]) == Creating
    ensures Tally(d + u + c, kind) == match kind
      case Deleting => |d|
      case Updating => |u|
      case Creating => |c|
  {
    TallyAppend(d + u, c, kind);
    TallyAppend(d, u, kind);
    TallyUniform(d, Deleting, kind);
    TallyUniform(u, Updating, kind);
    TallyUniform(c, Creating, kind);
  }

  lemma {:induction false} ScaledIsProduct(count: nat, target: nat)
    ensures Scaled(count, target) == count * target
  {
    if count > 0 {
      ScaledIsProduct(count - 1, target);
    }
  }

  /** The records of a group of `n` beyond the first `target`. */
  function Dropped(n: nat, target: nat): nat {
    if n > target then n - target else 0
  }

  function Sum(xs: seq<nat>): nat {
    if xs == [] then 0 else Sum(xs[..|xs| - 1]) + xs[|xs| - 1]
  }

  /** The deletes each configured prefix plans. */
  function Excesses(records: seq<Record>, prefixes: seq<string>, target: nat): (xs: seq<nat>)
    ensures |xs| == |prefixes|
  {
    seq(|prefixes|, k requires 0 <= k < |prefixes| => Dropped(|Related(records, prefixes[k])|, target))
  }

  /** A kind counted over joined lists adds up its counts over the parts. */
  lemma {:induction false} TallyFlatten(parts: seq<seq<Op>>, kind: Kind, counts: seq<nat>)
    requires |counts| == |parts|
    requires forall k :: 0 <= k < |parts| ==> Tally(parts[k], kind) == counts[k]
    ensures Tally(Flatten(parts), kind) == Sum(counts)
    decreases |parts|
  {
    if parts != [] {
      var n := |parts| - 1;
      TallyFlatten(parts[..n], kind, counts[..n]);
      TallyAppend(Flatten(parts[..n]), parts[n], kind);
    }
  }

  /** Parts that each hold `target` updates and creates together hold
      `target` per part when joined. */
  lemma {:induction false} DrawsFlatten(parts: seq<seq<Op>>, target: nat)
    requires forall k :: 0 <= k < |parts| ==> Tally(parts[k], Updating) + Tally(parts[k], Creating) == target
    ensures Tally(Flatten(parts), Updating) + Tally(Flatten(parts), Creating) == Scaled(|parts|, target)
    decreases |parts|
  {
    if parts != [] {
      var n := |parts| - 1;
      DrawsFlatten(parts[..n], target);
      TallyAppend(Flatten(parts[..n]), parts[n], Updating);
      TallyAppend(Flatten(parts[..n]), parts[n], Creating);
    }
  }

  lemma {:induction false} SumZeros(xs: seq<nat>)
    requires forall k :: 0 <= k < |xs| ==> xs[k] == 0
    ensures Sum(xs) == 0
    decreases |xs|
  {
    if xs != [] {
      SumZeros(xs[..|xs| - 1]);
    }
  }

  /** Over a whole run: the deletes are the excess of every group, and the
      updates and creates together are `target` per prefix. */
  lemma PlanTotals(records: seq<Record>, prefixes: seq<string>, target: nat, random: nat -> Draw)
    ensures var ops := Plan(records, prefixes, target, random);
      Tally(ops, Deleting) == Sum(Excesses(records, prefixes, target)) &&
      Tally(ops, Updating) + Tally(ops, Creating) == |prefixes| * target
  {
    var parts := Parts(records, prefixes, target, random);
    var excesses := Excesses(records, prefixes, target);
    forall k | 0 <= k < |parts|
      ensures Tally(parts[k], Deleting) == excesses[k]
      ensures Tally(parts[k], Updating) + Tally(parts[k], Creating) == target
    {
      PrefixPlanCounts(records, prefixes[k], target, random, Scaled(k, target));
    }
    TallyFlatten(parts, Deleting, excesses);
    DrawsFlatten(parts, target);
    ScaledIsProduct(|prefixes|, target);
  }

  /** A listing call that does not succeed yields no records, so the run plans
      no delete and no update, and `target` creates per prefix, whatever the
      provider holds: each group keeps its records and gains `target` more. */
  lemma FailedListingOnlyCreates(reply: Reply, prefixes: seq<string>, target: nat, random: nat -> Draw)
    requires !Succeeded(reply)
    ensures var ops := Plan(ListedRecords(reply), prefixes, target, random);
      Tally(ops, Deleting) == 0 && Tally(ops, Updating) == 0 && Tally(ops, Creating) == |prefixes| * target
  {
    var parts := Parts([], prefixes, target, random);
    var zeros := seq(|parts|, k => 0);
    forall k | 0 <= k < |parts|
      ensures Tally(parts[k], Deleting) == zeros[k] && Tally(parts[k], Updating) == zeros[k]
    {
      PrefixPlanCounts([], prefixes[k], target, random, Scaled(k, target));
    }
    TallyFlatten(parts, Deleting, zeros);
    TallyFlatten(parts, Updating, zeros);
    SumZeros(zeros);
    PlanTotals([], prefixes, target, random);
  }
}
