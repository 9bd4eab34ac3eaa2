/** The wait for nodes of contrib/benchmark/cli/spinup.py: each poll counts the nodes that are still needed,
    and one number decides whether all of them are there. */
module Readiness {
  import opened Options
  import opened Sorting
  import opened Text

  /** A model and a hardware name of the configuration. */
  type Key = (string, string)

  datatype Service = Service(name: string, status: string, identities: seq<string>)

  /** A row of the node table; a GPU may lack a name. */
  datatype Node = Node(services: seq<Service>, gpus: seq<Option<string>>)

  const GPU_NAMES: seq<(string, string)> := [
    ("NVDA:A100_80G:SXM", "NVIDIA A100-SXM4-80GB"),
    ("NVDA:GH200", "NVIDIA GH200 120GB")
  ]

  function FindService(services: seq<Service>): Option<Service> {
    if services == [] then None
    else if services[0].name == "llm" then Some(services[0])
    else FindService(services[1..])
  }

  function FindModel(identities: seq<string>): Option<string> {
    if identities == [] then None
    else if "model=" <= identities[0] then Some(identities[0])
    else FindModel(identities[1..])
  }

  function Hardware(gpu: Option<string>, names: seq<(string, string)>): Option<string> {
    if names == [] then None
    else if Some(names[0].1) == gpu then Some(names[0].0)
    else Hardware(gpu, names[1..])
  }

  /** The name behind the first equals sign, up to the next one if there is one. */
  function ModelName(identity: string): string
    requires "model=" <= identity
  {
    ModelHasName(identity);
    Split(identity, '=')[1]
  }

  lemma ModelHasName(identity: string)
    requires "model=" <= identity
    ensures Split(identity, '=') == ["model"] + Split(identity[6..], '=')
  {
    assert identity == "model" + ['='] + identity[6..];
    SplitAfter("model", '=', identity[6..]);
  }

  lemma {:induction false} FindModelStarts(identities: seq<string>)
    ensures FindModel(identities).Some? ==> "model=" <= FindModel(identities).value
  {
    if identities != [] {
      FindModelStarts(identities[1..]);
    }
  }

  /** What a node serves, if it counts at all. */
  function Offer(node: Node): Option<Key> {
    var service := FindService(node.services);
    if service.None? || service.value.status != "connected" then None
    else
      FindModelStarts(service.value.identities);
      var identity := FindModel(service.value.identities);
      if identity.None? || node.gpus == [] then None
      else
        match Hardware(node.gpus[0], GPU_NAMES)
        case None => None
        case Some(h) => Some((ModelName(identity.value), h))
  }

  // ---- Which nodes count ----

  predicate FirstLlm(services: seq<Service>, i: nat) {
    i < |services| && services[i].name == "llm" && forall j :: 0 <= j < i ==> services[j].name != "llm"
  }

  predicate FirstModel(identities: seq<string>, i: nat) {
    i < |identities| && "model=" <= identities[i] && forall j :: 0 <= j < i ==> !("model=" <= identities[j])
  }

  /** The identity names the model, and perhaps more behind another equals sign. */
  ghost predicate NamesModel(identity: string, model: string) {
    exists rest :: identity == "model=" + model + rest && Free(model, '=') && (rest == "" || rest[0] == '=')
  }

  predicate RunsOn(gpu: Option<string>, hardware: string) {
    || (gpu == Some("NVIDIA A100-SXM4-80GB") && hardware == "NVDA:A100_80G:SXM")
    || (gpu == Some("NVIDIA GH200 120GB") && hardware == "NVDA:GH200")
  }

  /** A node counts for a model on a hardware: its first llm service is connected and names the model first, and its
      first GPU is of that kind. */
  ghost predicate Serves(node: Node, model: string, hardware: string) {
    && node.gpus != [] && RunsOn(node.gpus[0], hardware)
    && exists i: nat :: FirstLlm(node.services, i) && Announces(node.services[i], model)
  }

  ghost predicate Announces(service: Service, model: string) {
    && service.status == "connected"
    && exists j: nat :: FirstModel(service.identities, j) && NamesModel(service.identities[j], model)
  }

  lemma {:induction false} FindServiceAt(services: seq<Service>, i: nat)
    requires FirstLlm(services, i)
    ensures FindService(services) == Some(services[i])
  {
    if i > 0 {
      assert services[1..][i - 1] == services[i];
      FindServiceAt(services[1..], i - 1);
    }
  }

  lemma {:induction false} ServiceFound(services: seq<Service>) returns (i: nat)
    requires FindService(services).Some?
    ensures FirstLlm(services, i)
  {
    if services[0].name == "llm" {
      i := 0;
    } else {
      var k := ServiceFound(services[1..]);
      i := k + 1;
    }
  }

  lemma {:induction false} FindModelAt(identities: seq<string>, i: nat)
    requires FirstModel(identities, i)
    ensures FindModel(identities) == Some(identities[i])
  {
    if i > 0 {
      assert identities[1..][i - 1] == identities[i];
      assert !("model=" <= identities[0]);
      FindModelAt(identities[1..], i - 1);
    }
  }

  lemma {:induction false} ModelFound(identities: seq<string>) returns (i: nat)
    requires FindModel(identities).Some?
    ensures FirstModel(identities, i)
  {
    if "model=" <= identities[0] {
      i := 0;
    } else {
      var k := ModelFound(identities[1..]);
      i := k + 1;
    }
  }

  lemma HardwareExactly(gpu: Option<string>, h: string)
    ensures Hardware(gpu, GPU_NAMES) == Some(h) <==> RunsOn(gpu, h)
  {
    var rest := GPU_NAMES[1..];
    assert rest == [("NVDA:GH200", "NVIDIA GH200 120GB")] && rest[1..] == [];
    assert Hardware(gpu, rest[1..]) == None;
  }

  lemma ModelNameExactly(identity: string, model: string)
    requires "model=" <= identity
    ensures ModelName(identity) == model <==> NamesModel(identity, model)
  {
    ModelHasName(identity);
    var tail := identity[6..];
    var parts := Split(tail, '=');
    assert ModelName(identity) == parts[0];
    if parts[0] == model {
      var rest := FirstPart(tail, '=');
      assert identity == "model=" + model + rest;
    }
    if rest :| identity == "model=" + model + rest && Free(model, '=') && (rest == "" || rest[0] == '=') {
      assert tail == model + rest;
      if rest == "" {
        assert tail == model;
        SplitOfFree(model, '=');
      } else {
        assert tail == model + ['='] + rest[1..];
        SplitAfter(model, '=', rest[1..]);
      }
    }
  }

  /** A node counts for just the one key that it serves. */
  lemma OfferExactly(node: Node, model: string, hardware: string)
    ensures Offer(node) == Some((model, hardware)) <==> Serves(node, model, hardware)
  {
    if Offer(node) == Some((model, hardware)) {
      var i := ServiceFound(node.services);
      FindServiceAt(node.services, i);
      var ids := node.services[i].identities;
      var j := ModelFound(ids);
      FindModelAt(ids, j);
      HardwareExactly(node.gpus[0], hardware);
      ModelNameExactly(ids[j], model);
    }
    if Serves(node, model, hardware) {
      var i: nat :| FirstLlm(node.services, i) && Announces(node.services[i], model);
      FindServiceAt(node.services, i);
      var ids := node.services[i].identities;
      var j: nat :| FirstModel(ids, j) && NamesModel(ids[j], model);
      FindModelAt(ids, j);
      HardwareExactly(node.gpus[0], hardware);
      ModelNameExactly(ids[j], model);
    }
  }

  // ---- The table ----

  /** Everything a table offers, in its order. */
  function Offers(table: seq<Node>): seq<Key> {
    if table == [] then []
    else
      Append(Offers(table[..|table| - 1]), Offer(table[|table| - 1]))
  }

  function Append(keys: seq<Key>, offer: Option<Key>): seq<Key> {
    match offer
    case None => keys
    case Some(k) => keys + [k]
  }

  lemma AppendCount(keys: seq<Key>, offer: Option<Key>, k: Key)
    ensures multiset(Append(keys, offer))[k] == multiset(keys)[k] + if offer == Some(k) then 1 else 0
  {
  }

  lemma OffersNext(table: seq<Node>, i: nat, offer: Option<Key>)
    requires i < |table| && offer == Offer(table[i])
    ensures Offers(table[..i + 1]) == Append(Offers(table[..i]), offer)
  {
    assert table[..i + 1][..i] == table[..i];
  }

  /** `required_counts`: how often each key is expected. */
  method RequiredCounts(expected: seq<Key>) returns (required: map<Key, nat>)
    ensures forall k :: k in required <==> k in expected
    ensures forall k :: k in required ==> required[k] == multiset(expected)[k]
  {
    required := map[];
    for i := 0 to |expected|
      invariant forall k :: k in required <==> k in expected[..i]
      invariant forall k :: k in required ==> required[k] == multiset(expected[..i])[k]
    {
      var key := expected[i];
      assert expected[..i + 1] == expected[..i] + [key];
      required := required[key := (if key in required then required[key] else 0) + 1];
    }
    assert expected[..|expected|] == expected;
  }

  /** One more offer raises the capped total just when the cap is not yet reached. */
  lemma Capped(need: multiset<Key>, have: multiset<Key>, k: Key)
    ensures need * (have + multiset{k}) == if (need * have)[k] < need[k] then need * have + multiset{k} else need * have
  {
  }

  /** The scan of one table: the total is the number of expected nodes that the offers can be matched with,
      each key counted up to its requirement. */
  method CountMatching(required: map<Key, nat>, table: seq<Node>, ghost need: multiset<Key>) returns (total: nat)
    requires forall k :: k in required <==> k in need
    requires forall k :: k in required ==> required[k] == need[k]
    ensures total == |need * multiset(Offers(table))|
  {
    var current: map<Key, nat> := map[];
    total := 0;
    ghost var have: multiset<Key> := multiset{};
    for i := 0 to |table|
      invariant have == multiset(Offers(table[..i]))
      invariant total == |need * have|
      invariant forall k :: (need * have)[k] == if k in current then current[k] else 0
    {
      var offer := Offer(table[i]);
      OffersNext(table, i, offer);
      if offer.Some? {
        var key := offer.value;
        Capped(need, have, key);
        ghost var met := need * have;
        have := have + multiset{key};
        if key in required {
          var needed := required[key];
          var got := if key in current then current[key] else 0;
          if got < needed {
            current := current[key := got + 1];
            total := total + 1;
            assert need * have == met + multiset{key};
          }
        }
      }
    }
    assert table[..|table|] == table;
  }

  /** What one poll of the table brings: a table, or a failure that is logged and retried. */
  datatype Poll = Failed | Table(nodes: seq<Node>)

  /** For every key the table offers at least as many nodes as are expected. */
  ghost predicate Ready(expected: seq<Key>, table: seq<Node>) {
    forall k :: multiset(expected)[k] <= multiset(Offers(table))[k]
  }

  ghost predicate ReadyPoll(expected: seq<Key>, p: Poll) {
    p.Table? && Ready(expected, p.nodes)
  }

  lemma FullIntersection(need: multiset<Key>, have: multiset<Key>)
    ensures |need * have| <= |need|
    ensures |need * have| == |need| <==> forall k :: need[k] <= have[k]
  {
    var met := need * have;
    assert need == met + (need - met);
    if |met| == |need| {
      assert need - met == multiset{};
      forall k ensures need[k] <= have[k] {
        assert (need - met)[k] == 0;
      }
    }
    if forall k :: need[k] <= have[k] {
      assert met == need;
    }
  }

  /** The single counter is as good as the condition on every key. */
  lemma CounterDecides(expected: seq<Key>, table: seq<Node>)
    ensures |multiset(expected) * multiset(Offers(table))| >= |expected| <==> Ready(expected, table)
  {
    FullIntersection(multiset(expected), multiset(Offers(table)));
    assert |multiset(expected)| == |expected|;
  }

  /** `wait_for_nodes` over the polls it makes: it ends at the first one whose table is ready. */
  method WaitForNodes(expected: seq<Key>, polls: seq<Poll>) returns (end: Option<nat>)
    ensures end.Some? ==> end.value < |polls| && ReadyPoll(expected, polls[end.value])
    ensures end.Some? ==> forall i :: 0 <= i < end.value ==> !ReadyPoll(expected, polls[i])
    ensures end.None? ==> forall i :: 0 <= i < |polls| ==> !ReadyPoll(expected, polls[i])
  {
    var required := RequiredCounts(expected);
    for i := 0 to |polls|
      invariant forall j :: 0 <= j < i ==> !ReadyPoll(expected, polls[j])
    {
      if polls[i].Table? {
        var total := CountMatching(required, polls[i].nodes, multiset(expected));
        CounterDecides(expected, polls[i].nodes);
        if total >= |expected| {
          return Some(i);
        }
      }
    }
    return None;
  }

  // ---- The order of the table does not matter ----

  lemma CountNext(table: seq<Node>, n: nat, p: Node -> bool)
    requires |table| == n + 1
    ensures CountWhere(table, p) == CountWhere(table[..n], p) + if p(table[n]) then 1 else 0
  {
    assert table == table[..n] + [table[n]];
    FilterConcat(table[..n], [table[n]], p);
  }

  /** A key is offered as often as there are rows that serve it. */
  lemma {:induction false} OffersCount(table: seq<Node>, k: Key)
    ensures multiset(Offers(table))[k] == CountWhere(table, (n: Node) => Offer(n) == Some(k))
  {
    if table != [] {
      var n := |table| - 1;
      OffersCount(table[..n], k);
      CountNext(table, n, (n: Node) => Offer(n) == Some(k));
      AppendCount(Offers(table[..n]), Offer(table[n]), k);
    }
  }

  lemma OrderDoesNotMatter(a: seq<Node>, b: seq<Node>)
    requires multiset(a) == multiset(b)
    ensures multiset(Offers(a)) == multiset(Offers(b))
  {
    forall k ensures multiset(Offers(a))[k] == multiset(Offers(b))[k] {
      OffersCount(a, k);
      OffersCount(b, k);
      CountOfPermutation(a, b, (n: Node) => Offer(n) == Some(k));
    }
  }
}
