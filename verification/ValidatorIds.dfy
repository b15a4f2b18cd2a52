/**
  Which validator id a scenario's nodes run with (driver/executor/run.go): ids come
  from the genesis, from a registration on chain, or from an earlier run of the node.
 */
module ValidatorIds {
  import opened Common

  // ---------------------------------------------------------------- numerals

  const MAX_INT: nat := 0x7FFF_FFFF_FFFF_FFFF

  function Digit(d: nat): char
    requires d < 10
  {
    '0' + d as char
  }

  /** %d of a non-negative number */
  function Decimal(n: nat): string {
    if n < 10 then [Digit(n)] else Decimal(n / 10) + [Digit(n % 10)]
  }

  predicate IsDigit(c: char) {
    '0' <= c <= '9'
  }

  /** The value of a numeral, None if it is not made of digits. */
  function ValueOf(s: string): Option<int> {
    if s == [] || !IsDigit(s[|s| - 1]) then None
    else
      var d := s[|s| - 1] as int - '0' as int;
      if |s| == 1 then Some(d)
      else
        match ValueOf(s[..|s| - 1])
        case None => None
        case Some(v) => Some(10 * v + d)
  }

  /** strconv.Atoi: an optional sign, digits, and a value that fits 64 bits. */
  function Atoi(s: string): Option<int> {
    if s == [] then None
    else if s[0] == '-' then
      match ValueOf(s[1..])
      case Some(v) => if v <= MAX_INT + 1 then Some(-v) else None
      case None => None
    else
      match ValueOf(if s[0] == '+' then s[1..] else s)
      case Some(v) => if v <= MAX_INT then Some(v) else None
      case None => None
  }

  lemma {:induction false} DecimalIsRead(n: nat)
    ensures ValueOf(Decimal(n)) == Some(n) && IsDigit(Decimal(n)[0])
  {
    var s := Decimal(n);
    if n >= 10 {
      DecimalIsRead(n / 10);
      assert s[..|s| - 1] == Decimal(n / 10);
    }
  }

  /** No printed number has a leading zero. */
  lemma {:induction false} DecimalIsCanonical(n: nat)
    ensures Decimal(n)[0] == '0' <==> n == 0
    ensures |Decimal(n)| > 1 <==> n >= 10
  {
    if n >= 10 {
      DecimalIsCanonical(n / 10);
    }
  }

  // ---- What counts as a numeral, independently of how it is parsed ----

  ghost predicate AllDigits(s: string) {
    forall i :: 0 <= i < |s| ==> '0' <= s[i] <= '9'
  }

  /** The value of further digits behind those read so far, from left to right. */
  ghost function ValueFrom(acc: nat, s: string): nat
    requires AllDigits(s)
    decreases |s|
  {
    if s == [] then acc else ValueFrom(10 * acc + (s[0] as int - '0' as int), s[1..])
  }

  ghost function Unsigned(s: string): string {
    if s != [] && (s[0] == '-' || s[0] == '+') then s[1..] else s
  }

  /** An optional sign and one or more digits, of a value that fits 64 bits. */
  ghost predicate IsNumeral(s: string) {
    && Unsigned(s) != [] && AllDigits(Unsigned(s))
    && ValueFrom(0, Unsigned(s)) <= (if s[0] == '-' then 9_223_372_036_854_775_808 else 9_223_372_036_854_775_807)
  }

  lemma {:induction false} ValueFromAppends(acc: nat, s: string, d: char)
    requires AllDigits(s) && '0' <= d <= '9'
    ensures AllDigits(s + [d]) && ValueFrom(acc, s + [d]) == 10 * ValueFrom(acc, s) + (d as int - '0' as int)
    decreases |s|
  {
    if s == [] {
      assert s + [d] == [d] && [d][1..] == [];
    } else {
      assert (s + [d])[1..] == s[1..] + [d];
      ValueFromAppends(10 * acc + (s[0] as int - '0' as int), s[1..], d);
    }
  }

  /** Parsing from the right reads the same value, and exactly the non-empty runs of digits. */
  lemma {:induction false} ValueOfIff(s: string)
    ensures ValueOf(s).Some? <==> s != [] && AllDigits(s)
    ensures s != [] && AllDigits(s) ==> ValueOf(s) == Some(ValueFrom(0, s))
    decreases |s|
  {
    if s != [] && IsDigit(s[|s| - 1]) {
      var n := |s| - 1;
      assert s == s[..n] + [s[n]];
      if |s| > 1 {
        ValueOfIff(s[..n]);
      }
      if AllDigits(s[..n]) {
        ValueFromAppends(0, s[..n], s[n]);
      }
    }
  }

  /** strconv.Atoi accepts exactly the numerals. */
  lemma AtoiIff(s: string)
    ensures Atoi(s).Some? <==> IsNumeral(s)
  {
    if s != [] {
      ValueOfIff(Unsigned(s));
      ValueOfIff(s);
    }
  }

  /** Parsing a printed instance number gives it back. */
  lemma AtoiInvertsDecimal(n: nat)
    ensures Atoi(Decimal(n)) == if n <= MAX_INT then Some(n) else None
  {
    DecimalIsRead(n);
  }

  // ---------------------------------------------------------------- labels

  /** The name of an instance: the bare name if there is only one. */
  function Label(name: string, instances: int, instance: nat): string {
    if instances > 1 then name + "-" + Decimal(instance) else name
  }

  function Labels(name: string, instances: int): seq<string> {
    seq(if instances > 0 then instances else 0, i requires i >= 0 => Label(name, instances, i))
  }

  /** The bare name for one instance, numbered names for more. */
  ghost predicate AreLabels(labels: seq<string>, name: string, instances: int) {
    && (instances <= 0 ==> labels == [])
    && (instances == 1 ==> labels == [name])
    && (instances > 1 ==> |labels| == instances && forall i :: 0 <= i < instances ==> labels[i] == name + "-" + Decimal(i))
  }

  /** No two instances of a node share a label. */
  lemma LabelsAreDistinct(name: string, instances: int)
    ensures Distinct(Labels(name, instances)) && AreLabels(Labels(name, instances), name, instances)
  {
    var labels := Labels(name, instances);
    forall i, j | 0 <= i < j < |labels|
      ensures labels[i] != labels[j]
    {
      var prefix := name + "-";
      assert labels[i][|prefix|..] == Decimal(i) && labels[j][|prefix|..] == Decimal(j);
      DecimalIsRead(i);
      DecimalIsRead(j);
    }
  }

  /** What a stop of `base` stops. */
  predicate IsTarget(base: string, name: string) {
    || name == base
    || (base + "-" <= name && Atoi(name[|base| + 1..]).Some?)
  }

  /** What a stop of `base` is to stop, independently of how names are compared. */
  ghost predicate Stops(base: string, name: string) {
    name == base || exists suffix :: name == base + "-" + suffix && IsNumeral(suffix)
  }

  lemma SuffixOf(base: string, suffix: string)
    ensures base + "-" <= base + "-" + suffix && (base + "-" + suffix)[|base| + 1..] == suffix
  {
  }

  lemma IsTargetIff(base: string, name: string)
    ensures IsTarget(base, name) <==> Stops(base, name)
  {
    if base + "-" <= name {
      var suffix := name[|base| + 1..];
      assert name == base + "-" + suffix;
      AtoiIff(suffix);
    }
    if name != base && Stops(base, name) {
      var suffix :| name == base + "-" + suffix && IsNumeral(suffix);
      SuffixOf(base, suffix);
      AtoiIff(suffix);
    }
  }

  /** Of the names that begin with the base, a stop reaches exactly the numbered ones. */
  lemma SuffixIsStoppedIff(base: string, suffix: string)
    ensures IsTarget(base, base + "-" + suffix) <==> IsNumeral(suffix)
  {
    SuffixOf(base, suffix);
    AtoiIff(suffix);
    assert |base + "-" + suffix| > |base|;
  }

  /** A stop by name reaches every instance that a start under this name creates. */
  lemma StopReachesEveryInstance(base: string, instances: int, instance: nat)
    requires instance < instances <= MAX_INT
    ensures IsTarget(base, Label(base, instances, instance))
  {
    AtoiInvertsDecimal(instance);
    if instances > 1 {
      assert Label(base, instances, instance)[|base| + 1..] == Decimal(instance);
    }
  }

  // ---------------------------------------------------------------- ids

  /** Every recorded id exists on chain. */
  ghost predicate Issued(ids: map<string, int>, last: nat) {
    forall node :: node in ids ==> 1 <= ids[node] <= last
  }

  /** Distinct labels never share an id. */
  ghost predicate Unshared(ids: map<string, int>) {
    forall a, b :: a in ids && b in ids && a != b ==> ids[a] != ids[b]
  }

  /** No recorded label ever gets another id. */
  ghost predicate Extends(ids: map<string, int>, later: map<string, int>) {
    forall node :: node in ids ==> node in later && later[node] == ids[node]
  }

  /** The labels that have no id yet. */
  function Missing(ids: map<string, int>, labels: seq<string>): seq<string> {
    if labels == [] then []
    else
      var n := |labels| - 1;
      Missing(ids, labels[..n]) + if labels[n] in ids then [] else [labels[n]]
  }

  lemma {:induction false} MissingMembers(ids: map<string, int>, labels: seq<string>)
    ensures forall node :: node in Missing(ids, labels) <==> node in labels && node !in ids
    decreases |labels|
  {
    if labels != [] {
      var n := |labels| - 1;
      MissingMembers(ids, labels[..n]);
      assert labels == labels[..n] + [labels[n]];
    }
  }

  ghost predicate Known(node: string, genesis: map<string, int>, ids: map<string, int>, registered: seq<string>) {
    node in ids <==> node in genesis || node in registered
  }

  /** Every label registered so far, and the genesis labels, are what is recorded. */
  ghost predicate OncePerLabel(genesis: map<string, int>, ids: map<string, int>, registered: seq<string>) {
    && Distinct(registered) && (forall i :: 0 <= i < |registered| ==> registered[i] !in genesis)
    && forall node :: Known(node, genesis, ids, registered)
  }

  /** A label that is not recorded was never registered: registering it keeps every label registered once. */
  lemma RegisterOnce(genesis: map<string, int>, ids: map<string, int>, registered: seq<string>, node: string, id: int)
    requires OncePerLabel(genesis, ids, registered) && node !in ids
    ensures OncePerLabel(genesis, ids[node := id], registered + [node])
  {
    assert Known(node, genesis, ids, registered);
    var longer, more := registered + [node], ids[node := id];
    forall other: string
      ensures Known(other, genesis, more, longer)
    {
      assert Known(other, genesis, ids, registered);
    }
  }

  lemma NextIsUnshared(ids: map<string, int>, last: nat, node: string)
    requires Issued(ids, last) && Unshared(ids) && node !in ids
    ensures Issued(ids[node := last + 1], last + 1) && Unshared(ids[node := last + 1])
  {
  }

  /** A node that runs as a validator runs with the id recorded for its label. */
  ghost predicate NodesKnown(nodes: map<string, Option<int>>, ids: map<string, int>) {
    forall node :: node in nodes && nodes[node].Some? ==> node in ids && ids[node] == nodes[node].value
  }

  /** How the chain and the network reply during a start; `failing` is the step's own expectation. */
  datatype Replies = Replies(registers: set<nat>, created: bool, failing: bool, activated: bool, restarted: bool)

  /** The books that every registration keeps. */
  ghost predicate Kept(genesis: map<string, int>, ids: map<string, int>, last: nat, registered: seq<string>) {
    Issued(ids, last) && Unshared(ids) && OncePerLabel(genesis, ids, registered)
  }

  lemma NextIsKept(genesis: map<string, int>, ids: map<string, int>, last: nat, registered: seq<string>, node: string)
    requires Kept(genesis, ids, last, registered) && node !in ids
    ensures Kept(genesis, ids[node := last + 1], last + 1, registered + [node])
  {
    NextIsUnshared(ids, last, node);
    RegisterOnce(genesis, ids, registered, node, last + 1);
  }

  /** The ids of the first instances, chosen from `ids`, which adds those instances to the recorded ones. */
  ghost predicate Chosen(recorded: map<string, int>, labels: seq<string>, chosen: seq<int>, ids: map<string, int>) {
    && |chosen| <= |labels| && Extends(recorded, ids)
    && (forall i :: 0 <= i < |chosen| ==> labels[i] in ids && chosen[i] == ids[labels[i]])
    && (forall node :: Known(node, recorded, ids, labels[..|chosen|]))
  }

  lemma ChooseNext(recorded: map<string, int>, labels: seq<string>, chosen: seq<int>, ids: map<string, int>, id: int)
    requires Chosen(recorded, labels, chosen, ids) && |chosen| < |labels| && Distinct(labels)
    requires labels[|chosen|] in recorded ==> id == recorded[labels[|chosen|]]
    ensures labels[|chosen|] !in recorded ==> labels[|chosen|] !in ids
    ensures Chosen(recorded, labels, chosen + [id],
                   if labels[|chosen|] in recorded then ids else ids[labels[|chosen|] := id])
  {
    var k := |chosen|;
    var more := if labels[k] in recorded then ids else ids[labels[k] := id];
    var longer := labels[..k + 1];
    assert Known(labels[k], recorded, ids, labels[..k]);
    forall other: string
      ensures Known(other, recorded, more, longer)
    {
      assert Known(other, recorded, ids, labels[..k]);
      assert longer == labels[..k] + [labels[k]];
    }
    assert |chosen + [id]| == k + 1;
  }

  lemma MissingNext(recorded: map<string, int>, labels: seq<string>, i: nat)
    requires i < |labels|
    ensures Missing(recorded, labels[..i + 1]) ==
      if labels[i] in recorded then Missing(recorded, labels[..i]) else Missing(recorded, labels[..i]) + [labels[i]]
  {
    assert labels[..i + 1][..i] == labels[..i];
  }

  /** The genesis ids: label number j has id j + 1. */
  ghost predicate GenesisIds(labels: seq<string>, ids: map<string, int>) {
    && (forall node :: node in ids <==> node in labels)
    && (forall i :: 0 <= i < |labels| ==> ids[labels[i]] == i + 1)
  }

  lemma GenesisIsKept(labels: seq<string>, ids: map<string, int>)
    requires GenesisIds(labels, ids)
    ensures Kept(ids, ids, |labels|, [])
  {
    forall node | node in ids
      ensures 1 <= ids[node] <= |labels| && labels[ids[node] - 1] == node
    {
      var i :| 0 <= i < |labels| && labels[i] == node;
    }
  }

  /** extractBootstrapValidators */
  method ExtractGenesisIds(name: string, instances: int) returns (ids: map<string, int>)
    ensures GenesisIds(Labels(name, instances), ids) && AreLabels(Labels(name, instances), name, instances)
  {
    var labels := Labels(name, instances);
    LabelsAreDistinct(name, instances);
    ids := map[];
    for j := 0 to |labels|
      invariant GenesisIds(labels[..j], ids)
    {
      ids := ids[labels[j] := j + 1];
    }
    assert labels[..|labels|] == labels;
  }

  /** The validators on chain: the last id given out, and for whom the scenario registered. */
  datatype Chain = Chain(last: nat, registered: seq<string>)

  /** RegisterValidatorNode: the new validator has the id after the last one. */
  function Register(chain: Chain, node: string): Chain {
    Chain(chain.last + 1, chain.registered + [node])
  }

  ghost predicate KeptBy(genesis: map<string, int>, ids: map<string, int>, chain: Chain) {
    Kept(genesis, ids, chain.last, chain.registered)
  }

  /** What is chosen and registered so far. */
  datatype Choice = Choice(chosen: seq<int>, chain: Chain)

  ghost predicate Choosing(genesis: map<string, int>, recorded: map<string, int>, chain: Chain, labels: seq<string>, c: Choice, ids: map<string, int>) {
    && Chosen(recorded, labels, c.chosen, ids) && KeptBy(genesis, ids, c.chain)
    && c.chain.registered == chain.registered + Missing(recorded, labels[..|c.chosen|])
  }

  lemma ReuseNext(genesis: map<string, int>, recorded: map<string, int>, chain: Chain, labels: seq<string>, c: Choice, ids: map<string, int>)
    requires Choosing(genesis, recorded, chain, labels, c, ids) && Distinct(labels)
    requires |c.chosen| < |labels| && labels[|c.chosen|] in recorded
    ensures Choosing(genesis, recorded, chain, labels, Reuse(c, recorded[labels[|c.chosen|]]), ids)
  {
    MissingNext(recorded, labels, |c.chosen|);
    ChooseNext(recorded, labels, c.chosen, ids, recorded[labels[|c.chosen|]]);
  }

  lemma RegisterNext(genesis: map<string, int>, recorded: map<string, int>, chain: Chain, labels: seq<string>, c: Choice, ids: map<string, int>)
    requires Choosing(genesis, recorded, chain, labels, c, ids) && Distinct(labels)
    requires |c.chosen| < |labels| && labels[|c.chosen|] !in recorded
    ensures Choosing(genesis, recorded, chain, labels, Registered(c, labels[|c.chosen|]), ids[labels[|c.chosen|] := c.chain.last + 1])
  {
    var node, id, d := labels[|c.chosen|], c.chain.last + 1, Registered(c, labels[|c.chosen|]);
    ChooseNext(recorded, labels, c.chosen, ids, id);
    assert KeptBy(genesis, ids[node := id], d.chain) by {
      NextIsKept(genesis, ids, c.chain.last, c.chain.registered, node);
    }
    assert d.chain.registered == chain.registered + Missing(recorded, labels[..|d.chosen|]) by {
      MissingNext(recorded, labels, |c.chosen|);
      Associates(chain.registered, Missing(recorded, labels[..|c.chosen|]), [node]);
    }
  }

  /** A new id follows the last one given out by the number of new ids up to it. */
  predicate FollowsLast(i: nat, recorded: map<string, int>, chain: Chain, labels: seq<string>, chosen: seq<int>) {
    i < |chosen| && i < |labels| && labels[i] !in recorded ==> chosen[i] == chain.last + |Missing(recorded, labels[..i + 1])|
  }

  /** New ids follow each other without gaps, in the order of the instances. */
  ghost predicate Consecutive(recorded: map<string, int>, chain: Chain, labels: seq<string>, c: Choice) {
    && |c.chosen| <= |labels|
    && c.chain.last == chain.last + |Missing(recorded, labels[..|c.chosen|])|
    && forall i :: FollowsLast(i, recorded, chain, labels, c.chosen)
  }

  lemma OneMoreFollows(recorded: map<string, int>, chain: Chain, labels: seq<string>, chosen: seq<int>, id: int)
    requires |chosen| < |labels| && forall i :: FollowsLast(i, recorded, chain, labels, chosen)
    requires labels[|chosen|] !in recorded ==> id == chain.last + |Missing(recorded, labels[..|chosen| + 1])|
    ensures forall i :: FollowsLast(i, recorded, chain, labels, chosen + [id])
  {
    var more := chosen + [id];
    forall i: nat
      ensures FollowsLast(i, recorded, chain, labels, more)
    {
      assert FollowsLast(i, recorded, chain, labels, chosen);
    }
  }

  lemma ReuseIsConsecutive(recorded: map<string, int>, chain: Chain, labels: seq<string>, c: Choice)
    requires Consecutive(recorded, chain, labels, c) && |c.chosen| < |labels| && labels[|c.chosen|] in recorded
    ensures Consecutive(recorded, chain, labels, Reuse(c, recorded[labels[|c.chosen|]]))
  {
    MissingNext(recorded, labels, |c.chosen|);
    OneMoreFollows(recorded, chain, labels, c.chosen, recorded[labels[|c.chosen|]]);
  }

  lemma RegisterIsConsecutive(recorded: map<string, int>, chain: Chain, labels: seq<string>, c: Choice)
    requires Consecutive(recorded, chain, labels, c) && |c.chosen| < |labels| && labels[|c.chosen|] !in recorded
    ensures Consecutive(recorded, chain, labels, Registered(c, labels[|c.chosen|]))
  {
    MissingNext(recorded, labels, |c.chosen|);
    OneMoreFollows(recorded, chain, labels, c.chosen, c.chain.last + 1);
  }

  function Reuse(c: Choice, id: int): Choice {
    c.(chosen := c.chosen + [id])
  }

  function Registered(c: Choice, node: string): Choice {
    Choice(c.chosen + [c.chain.last + 1], Register(c.chain, node))
  }

  /** Every instance has an id, or can get one: only a node that is new can be registered. */
  ghost predicate HaveIds(recorded: map<string, int>, labels: seq<string>, isRejoin: bool, replies: Replies) {
    forall i :: 0 <= i < |labels| ==> labels[i] in recorded || (!isRejoin && i in replies.registers)
  }

  /**
    The sequential loop of execStartNode over the instances of a validator.  The recorded
    ids are only looked up here; that `ids` is unshared although they are recorded later
    rests on the labels being distinct.
   */
  method ChooseIds(recorded: map<string, int>, chain: Chain, labels: seq<string>, isRejoin: bool, replies: Replies, ghost genesis: map<string, int>)
    returns (ok: bool, c: Choice, ghost ids: map<string, int>)
    requires KeptBy(genesis, recorded, chain) && Distinct(labels)
    ensures ok ==> |c.chosen| == |labels| && Choosing(genesis, recorded, chain, labels, c, ids)
    ensures ok ==> Consecutive(recorded, chain, labels, c)
    ensures ok && isRejoin ==> c.chain == chain
    ensures ok <==> HaveIds(recorded, labels, isRejoin, replies)
  {
    ok, c, ids := true, Choice([], chain), recorded;
    for i := 0 to |labels|
      invariant |c.chosen| == i && Choosing(genesis, recorded, chain, labels, c, ids)
      invariant Consecutive(recorded, chain, labels, c)
      invariant isRejoin ==> c.chain == chain
      invariant forall k :: 0 <= k < i ==> labels[k] in recorded || (!isRejoin && k in replies.registers)
    {
      if labels[i] in recorded {
        ReuseNext(genesis, recorded, chain, labels, c, ids);
        ReuseIsConsecutive(recorded, chain, labels, c);
        c := Reuse(c, recorded[labels[i]]);
      } else if isRejoin || i !in replies.registers {
        return false, c, ids;
      } else {
        RegisterNext(genesis, recorded, chain, labels, c, ids);
        RegisterIsConsecutive(recorded, chain, labels, c);
        ids := ids[labels[i] := c.chain.last + 1];
        c := Registered(c, labels[i]);
      }
    }
  }

  /** After the recording loop, what was chosen is what is recorded. */
  method RecordIds(recorded: map<string, int>, labels: seq<string>, chosen: seq<int>, ghost ids: map<string, int>)
    returns (r: map<string, int>)
    requires |chosen| == |labels| && Chosen(recorded, labels, chosen, ids)
    ensures r == ids
  {
    r := recorded;
    for i := 0 to |labels|
      invariant Extends(recorded, r) && Extends(r, ids)
      invariant forall j :: 0 <= j < i ==> labels[j] in r
    {
      r := r[labels[i] := chosen[i]];
    }
    assert labels[..|labels|] == labels;
    forall node | node in ids
      ensures node in r
    {
      assert Known(node, recorded, ids, labels);
    }
  }

  /** The nodes of these labels run with these ids; no other node is touched. */
  ghost predicate Created(before: map<string, Option<int>>, after: map<string, Option<int>>, labels: seq<string>, ids: seq<Option<int>>)
    requires |ids| == |labels|
  {
    && (forall i :: 0 <= i < |labels| ==> labels[i] in after && after[labels[i]] == ids[i])
    && (forall node :: node in before && node !in labels ==> node in after && after[node] == before[node])
    && (forall node :: node in after && node !in labels ==> node in before)
  }

  method RecordNodes(nodes: map<string, Option<int>>, labels: seq<string>, ids: seq<Option<int>>)
    returns (r: map<string, Option<int>>)
    requires |ids| == |labels| && Distinct(labels)
    ensures Created(nodes, r, labels, ids)
  {
    r := nodes;
    for i := 0 to |labels|
      invariant Created(nodes, r, labels[..i], ids[..i])
    {
      ghost var was := r;
      r := r[labels[i] := ids[i]];
      CreatedNext(nodes, was, labels, ids, i);
    }
    assert labels[..|labels|] == labels && ids[..|ids|] == ids;
  }

  lemma CreatedNext(before: map<string, Option<int>>, was: map<string, Option<int>>, labels: seq<string>, ids: seq<Option<int>>, i: nat)
    requires i < |labels| == |ids| && Distinct(labels) && Created(before, was, labels[..i], ids[..i])
    ensures Created(before, was[labels[i] := ids[i]], labels[..i + 1], ids[..i + 1])
  {
    assert labels[..i + 1] == labels[..i] + [labels[i]];
  }

  /** No other node is created, removed or changed. */
  ghost predicate OthersKept(before: map<string, Option<int>>, after: map<string, Option<int>>, labels: seq<string>) {
    && (forall node :: node in before && node !in labels ==> node in after && after[node] == before[node])
    && (forall node :: node in after && node !in labels ==> node in before)
  }

  /** The nodes of these labels run as observers. */
  ghost predicate Observe(nodes: map<string, Option<int>>, labels: seq<string>) {
    forall i :: 0 <= i < |labels| ==> labels[i] in nodes && nodes[labels[i]] == None
  }

  /** The nodes of these labels run with the ids recorded for them. */
  ghost predicate RunAs(nodes: map<string, Option<int>>, labels: seq<string>, recorded: map<string, int>) {
    forall i :: 0 <= i < |labels| ==>
      labels[i] in nodes && labels[i] in recorded && nodes[labels[i]] == Some(recorded[labels[i]])
  }

  lemma CreatedIsKnown(before: map<string, Option<int>>, after: map<string, Option<int>>, labels: seq<string>, ids: seq<Option<int>>,
                       recorded: map<string, int>, later: map<string, int>)
    requires |ids| == |labels| && Created(before, after, labels, ids) && NodesKnown(before, recorded) && Extends(recorded, later)
    requires forall i :: 0 <= i < |ids| && ids[i].Some? ==> labels[i] in later && ids[i] == Some(later[labels[i]])
    ensures NodesKnown(after, later)
  {
    forall node | node in after && after[node].Some?
      ensures node in later && later[node] == after[node].value
    {
      if node in labels {
        var i :| 0 <= i < |labels| && labels[i] == node;
        assert after[labels[i]] == ids[i];
      }
    }
  }

  lemma {:induction false} NothingMissing(labels: seq<string>, ids: map<string, int>)
    requires forall i :: 0 <= i < |labels| ==> labels[i] in ids
    ensures Missing(ids, labels) == []
    decreases |labels|
  {
    if labels != [] {
      NothingMissing(labels[..|labels| - 1], ids);
    }
  }

  method Targets(names: set<string>, base: string) returns (targets: set<string>)
    ensures targets <= names && forall name :: name in names ==> (name in targets <==> Stops(base, name))
  {
    targets := {};
    var todo := names;
    while todo != {}
      invariant todo <= names && targets <= names - todo
      invariant forall name :: name in names && name !in todo ==> (name in targets <==> Stops(base, name))
      decreases todo
    {
      var name :| name in todo;
      IsTargetIff(base, name);
      if IsTarget(base, name) {
        targets := targets + {name};
      }
      todo := todo - {name};
    }
  }

  /** A numbered or otherwise suffixed instance of the name. */
  predicate IsInstance(base: string, name: string) {
    |name| > |base| + 1 && base + "-" <= name
  }

  ghost predicate Suffixed(base: string, name: string) {
    exists suffix :: suffix != [] && name == base + "-" + suffix
  }

  lemma IsInstanceIff(base: string, name: string)
    ensures IsInstance(base, name) <==> Suffixed(base, name)
  {
    if IsInstance(base, name) {
      assert name == base + "-" + name[|base| + 1..];
    }
    if suffix :| suffix != [] && name == base + "-" + suffix {
      SuffixOf(base, suffix);
    }
  }

  ghost predicate Several(names: set<string>, base: string) {
    exists a, b :: a in names && b in names && a != b && Suffixed(base, a) && Suffixed(base, b)
  }

  /** hasMultipleInstances */
  method HasMultipleInstances(names: set<string>, base: string) returns (several: bool)
    ensures several <==> Several(names, base)
  {
    var count := 0;
    var todo := names;
    ghost var one := "";
    while todo != {}
      invariant todo <= names && 0 <= count <= 1
      invariant count == 0 ==> forall name :: name in names && Suffixed(base, name) ==> name in todo
      invariant count == 1 ==> one in names - todo && Suffixed(base, one)
      invariant count == 1 ==> forall name :: name in names && Suffixed(base, name) && name != one ==> name in todo
      decreases todo
    {
      var name :| name in todo;
      todo := todo - {name};
      IsInstanceIff(base, name);
      if IsInstance(base, name) {
        count := count + 1;
        if count > 1 {
          return true;
        }
        one := name;
      }
    }
    return false;
  }

  /** The node that a scenario means by a name. */
  ghost predicate Means(names: set<string>, name: string, node: string) {
    && node in names
    && (node == name || (name !in names && node == name + "-0" && !Several(names, name)))
  }

  /** Validators that are registered, or that rejoin, have to become active; genesis validators are. */
  ghost predicate MustBeActive(isValidator: bool, isRejoin: bool, labels: seq<string>, recorded: map<string, int>) {
    isValidator && if isRejoin then labels != [] else Missing(recorded, labels) != []
  }

  class Scenario {
    var nodes: map<string, Option<int>>   // active nodes and their validator ids
    var nodeHistory: set<string>
    var validatorIds: map<string, int>
    var chain: Chain
    ghost var genesis: map<string, int>

    ghost predicate Valid()
      reads this
    {
      && KeptBy(genesis, validatorIds, chain)
      && Extends(genesis, validatorIds) && NodesKnown(nodes, validatorIds)
    }

    /** The state a run begins with. */
    constructor (name: string, instances: int)
      ensures Valid() && nodes == map[] && nodeHistory == {} && chain.registered == []
      ensures validatorIds == genesis && GenesisIds(Labels(name, instances), genesis)
    {
      var ids := ExtractGenesisIds(name, instances);
      GenesisIsKept(Labels(name, instances), ids);
      nodes, nodeHistory := map[], {};
      validatorIds, genesis := ids, ids;
      chain := Chain(|Labels(name, instances)|, []);
    }

    method StartValidators(labels: seq<string>, isRejoin: bool, replies: Replies) returns (ok: bool)
      requires Valid() && Distinct(labels)
      modifies this`nodes, this`validatorIds, this`chain
      ensures ok ==> Valid() && Extends(old(validatorIds), validatorIds)
      ensures ok ==> chain.registered == old(chain.registered) + Missing(old(validatorIds), labels)
      ensures ok ==> chain.last == old(chain).last + |Missing(old(validatorIds), labels)|
      ensures ok && isRejoin ==> chain == old(chain)
      ensures ok <==> HaveIds(old(validatorIds), labels, isRejoin, replies) && replies.created
      ensures ok ==> RunAs(nodes, labels, validatorIds) && OthersKept(old(nodes), nodes, labels)
    {
      var c: Choice;
      ghost var ids: map<string, int>;
      ok, c, ids := ChooseIds(validatorIds, chain, labels, isRejoin, replies, genesis);
      chain := c.chain;
      if !ok || !replies.created {
        return false;
      }
      assert labels[..|labels|] == labels;
      var options := seq(|labels|, i requires 0 <= i < |labels| => Some(c.chosen[i]));
      nodes := RecordNodes(nodes, labels, options);
      validatorIds := RecordIds(validatorIds, labels, c.chosen, ids);
      assert forall i :: 0 <= i < |labels| ==> options[i] == Some(validatorIds[labels[i]]);
      CreatedIsKnown(old(nodes), nodes, labels, options, old(validatorIds), validatorIds);
      return true;
    }

    method StartObservers(labels: seq<string>, replies: Replies) returns (ok: bool)
      requires Valid() && Distinct(labels)
      modifies this`nodes
      ensures Valid() && ok == replies.created
      ensures ok ==> Observe(nodes, labels) && OthersKept(old(nodes), nodes, labels)
    {
      if !replies.created {
        return false;
      }
      ghost var none := seq(|labels|, i => None);
      nodes := RecordNodes(nodes, labels, seq(|labels|, i => None));
      CreatedIsKnown(old(nodes), nodes, labels, none, validatorIds, validatorIds);
      return true;
    }

    /** execStartNode */
    method StartNode(name: string, isValidator: bool, instances: int, replies: Replies) returns (ok: bool)
      requires Valid()
      modifies this`nodes, this`nodeHistory, this`validatorIds, this`chain
      ensures ok ==> Valid() && Extends(old(validatorIds), validatorIds)
      ensures ok && (name in old(nodes) || name in old(nodeHistory) || !isValidator) ==> chain == old(chain)
      ensures ok && name !in old(nodes) && isValidator ==>
        && chain.registered == old(chain.registered) + Missing(old(validatorIds), Labels(name, instances))
        && chain.last == old(chain).last + |Missing(old(validatorIds), Labels(name, instances))|
        && RunAs(nodes, Labels(name, instances), validatorIds)
      ensures ok && name !in old(nodes) && !isValidator ==> Observe(nodes, Labels(name, instances))
      ensures ok && (name in old(nodes) || !isValidator) ==> validatorIds == old(validatorIds)
      ensures ok && name in old(nodes) ==> nodes == old(nodes) && nodeHistory == old(nodeHistory)
      ensures ok && name !in old(nodes) ==>
        && OthersKept(old(nodes), nodes, Labels(name, instances))
        && nodeHistory == old(nodeHistory) + (set node | node in Labels(name, instances)) + {name}
      ensures ok <==>
        if name in old(nodes) then replies.restarted
        else
          && replies.created
          && (isValidator ==> HaveIds(old(validatorIds), Labels(name, instances), name in old(nodeHistory), replies))
          && (replies.activated || replies.failing
              || !MustBeActive(isValidator, name in old(nodeHistory), Labels(name, instances), old(validatorIds)))
    {
      if name in nodes {
        return replies.restarted;
      }
      var isRejoin := name in nodeHistory;
      var labels := Labels(name, instances);
      var before := |chain.registered|;
      LabelsAreDistinct(name, instances);
      if isValidator {
        ok := StartValidators(labels, isRejoin, replies);
      } else {
        ok := StartObservers(labels, replies);
      }
      if !ok {
        return;
      }
      nodeHistory := nodeHistory + (set node | node in labels) + {name};
      var registered := |chain.registered| - before;
      var mustBeActive := if !isValidator then 0 else if isRejoin then |labels| else registered;
      if mustBeActive > 0 && !replies.failing {
        ok := replies.activated;
      }
    }

    /** The first startNode of a scenario registers nothing: its labels are the genesis labels. */
    method FirstStart(name: string, instances: int, replies: Replies) returns (ok: bool)
      requires Valid() && nodes == map[] && nodeHistory == {} && chain.registered == []
      requires validatorIds == genesis && GenesisIds(Labels(name, instances), genesis)
      modifies this`nodes, this`nodeHistory, this`validatorIds, this`chain
      ensures ok ==> Valid() && chain.registered == [] && Extends(genesis, validatorIds)
      ensures ok ==> forall i :: 0 <= i < |Labels(name, instances)| ==>
        Labels(name, instances)[i] in nodes && nodes[Labels(name, instances)[i]] == Some(i + 1)
    {
      NothingMissing(Labels(name, instances), genesis);
      ok := StartNode(name, true, instances, replies);
    }

    /** execStopNode: the ids of stopped nodes are preserved. */
    method StopNode(base: string, stopped: bool) returns (ok: bool)
      requires Valid()
      modifies this`nodes
      ensures Valid() && (ok <==> stopped && exists name :: name in old(nodes) && Stops(base, name))
      ensures ok ==> forall name :: name in nodes <==> name in old(nodes) && !Stops(base, name)
      ensures forall name :: name in nodes ==> name in old(nodes) && nodes[name] == old(nodes)[name]
      ensures !ok ==> nodes == old(nodes)
    {
      var targets := Targets(nodes.Keys, base);
      if targets == {} || !stopped {
        return false;
      }
      var one :| one in targets;
      nodes := nodes - targets;
      return true;
    }

    /** Validators may also be registered by others. */
    method OthersRegister(count: nat)
      requires Valid()
      modifies this`chain
      ensures Valid() && chain.registered == old(chain.registered)
    {
      chain := chain.(last := chain.last + count);
    }

    /** resolveValidatorId: the recorded id of the one node that the name means. */
    method ResolveValidatorId(name: string) returns (r: Option<int>)
      requires Valid()
      ensures r.Some? <==> exists node :: Means(nodes.Keys, name, node) && nodes[node].Some?
      ensures r.Some? ==> exists node :: Means(nodes.Keys, name, node) && node in validatorIds && validatorIds[node] == r.value
    {
      var node := name;
      if name !in nodes {
        node := name + "-0";
        if node !in nodes {
          return None;
        }
        var several := HasMultipleInstances(nodes.Keys, name);
        if several {
          return None;
        }
      }
      assert Means(nodes.Keys, name, node);
      return nodes[node];
    }
  }

  datatype Step =
    | Start(name: string, isValidator: bool, instances: int, replies: Replies)
    | Stop(base: string, stopped: bool)
    | Others(count: nat)

  method Perform(s: Scenario, step: Step) returns (ok: bool)
    requires s.Valid()
    modifies s
    ensures s.genesis == old(s.genesis) && (ok ==> s.Valid() && Extends(old(s.validatorIds), s.validatorIds))
  {
    match step
    case Start(name, isValidator, count, replies) => ok := s.StartNode(name, isValidator, count, replies);
    case Stop(base, stopped) => ok := s.StopNode(base, stopped);
    case Others(count) => s.OthersRegister(count); ok := true;
  }

  /** What is recorded at some moment of a run, and what was registered until then. */
  datatype Books = Books(ids: map<string, int>, registered: seq<string>)

  ghost function BooksOf(s: Scenario): Books
    reads s
  {
    Books(s.validatorIds, s.chain.registered)
  }

  /** From any moment on every recorded label keeps its id. */
  ghost predicate NeverChanged(log: seq<Books>) {
    forall i, j :: 0 <= i <= j < |log| ==> Extends(log[i].ids, log[j].ids)
  }

  lemma ExtendsFurther(a: map<string, int>, b: map<string, int>, c: map<string, int>)
    requires Extends(a, b) && Extends(b, c)
    ensures Extends(a, c)
  {
  }

  lemma NeverChangedSince(log: seq<Books>, next: Books)
    requires NeverChanged(log) && log != [] && Extends(log[|log| - 1].ids, next.ids)
    ensures NeverChanged(log + [next])
  {
    var longer, n := log + [next], |log|;
    forall i, j | 0 <= i <= j < |longer|
      ensures Extends(longer[i].ids, longer[j].ids)
    {
      if i < n == j {
        assert longer[i] == log[i];
        ExtendsFurther(log[i].ids, log[n - 1].ids, next.ids);
      }
    }
  }

  /**
    In every run, up to its end or the step that fails, every label keeps the id it was first
    recorded with; the first step registers nothing; no label is registered twice or
    although it is a genesis label; and no two labels share an id.  The log holds the books
    before the first step, after it, and after every further step.
   */
  method RunScenario(name: string, instances: int, first: Replies, steps: seq<Step>)
    returns (s: Scenario, ok: bool, ghost log: seq<Books>)
    ensures fresh(s) && (ok ==> s.Valid() && |log| == |steps| + 2 && log[|log| - 1] == BooksOf(s))
    ensures |log| >= 1 && GenesisIds(Labels(name, instances), log[0].ids) && NeverChanged(log)
    ensures |log| >= 2 ==> log[1].registered == []
    ensures ok ==> Unshared(s.validatorIds) && Distinct(s.chain.registered)
    ensures ok ==> forall node :: node in s.chain.registered ==> node in s.validatorIds && node !in log[0].ids
  {
    s := new Scenario(name, instances);
    log := [BooksOf(s)];
    ok := s.FirstStart(name, instances, first);
    if ok {
      NeverChangedSince(log, BooksOf(s));
      log := log + [BooksOf(s)];
      ok, log := RunOn(s, steps, log);
    }
  }

  /** The steps after the first. */
  method RunOn(s: Scenario, steps: seq<Step>, ghost before: seq<Books>) returns (ok: bool, ghost log: seq<Books>)
    requires s.Valid() && |before| == 2 && before[1] == BooksOf(s) && s.genesis == before[0].ids && NeverChanged(before)
    modifies s
    ensures NeverChanged(log) && before <= log
    ensures ok ==> s.Valid() && |log| == |steps| + 2 && log[|log| - 1] == BooksOf(s)
    ensures ok ==> Unshared(s.validatorIds) && Distinct(s.chain.registered)
    ensures ok ==> forall node :: node in s.chain.registered ==> node in s.validatorIds && node !in log[0].ids
  {
    ok, log := true, before;
    for i := 0 to |steps|
      invariant ok && s.Valid() && s.genesis == before[0].ids
      invariant |log| == i + 2 && before <= log && log[i + 1] == BooksOf(s) && NeverChanged(log)
    {
      ok := Perform(s, steps[i]);
      if !ok {
        return;
      }
      NeverChangedSince(log, BooksOf(s));
      log := log + [BooksOf(s)];
    }
    RegisteredAreNew(s.genesis, s.validatorIds, s.chain.registered);
  }

  lemma RegisteredAreNew(genesis: map<string, int>, ids: map<string, int>, registered: seq<string>)
    requires OncePerLabel(genesis, ids, registered)
    ensures forall node :: node in registered ==> node in ids && node !in genesis
  {
    forall node | node in registered
      ensures node in ids && node !in genesis
    {
      assert Known(node, genesis, ids, registered);
    }
  }
}
