/** The network topology checks of Network.check_conns, Network.check_network
    and Network.init_components (src/tespy/networks/network.py). Components
    are identified by their position in the network's component list, so two
    distinct components may carry the same label. */
module Topology {
  import opened Wrappers

  /** A component as the network sees it: its label and the numbers of
      inlets and outlets its own inlets() and outlets() report. */
  datatype Component = Component(name: string, numIn: nat, numOut: nat)

  /** A connection from outlet `sourceId` of component `source` to inlet
      `targetId` of component `target`. */
  datatype Edge = Edge(source: nat, sourceId: string, target: nat, targetId: string)

  /** Every connection refers to components of the list. */
  predicate EdgesWithin(comps: seq<Component>, edges: seq<Edge>)
  {
    forall e :: e in edges ==> e.source < |comps| && e.target < |comps|
  }

  predicate Distinct<K(==)>(s: seq<K>)
  {
    forall i, j :: 0 <= i < j < |s| ==> s[i] != s[j]
  }

  lemma DistinctExtend<K>(s: seq<K>, i: nat)
    requires i < |s| && Distinct(s[..i]) && s[i] !in s[..i]
    ensures Distinct(s[..i + 1])
  {
    var t := s[..i + 1];
    forall a, b | 0 <= a < b < |t|
      ensures t[a] != t[b]
    {
      if b == i {
        assert s[..i][a] == s[a];
      } else {
        assert s[..i][a] == s[a] && s[..i][b] == s[b];
      }
    }
  }

  /** The first position, from `i` on, whose key already occurred earlier:
      the first row that DataFrame.duplicated marks. */
  function FirstDuplicateFrom<K(==)>(s: seq<K>, i: nat): (r: Option<nat>)
    requires i <= |s| && Distinct(s[..i])
    ensures r.Some? ==> i <= r.value < |s| && s[r.value] in s[..r.value] && Distinct(s[..r.value])
    ensures r.None? ==> Distinct(s)
    decreases |s| - i
  {
    if i == |s| then
      assert s[..i] == s;
      None
    else if s[i] in s[..i] then Some(i)
    else
      DistinctExtend(s, i);
      FirstDuplicateFrom(s, i + 1)
  }

  /** The first position whose key already occurred earlier; none exactly
      when all keys are distinct. */
  function FirstDuplicate<K(==)>(s: seq<K>): (r: Option<nat>)
    ensures r.Some? ==> r.value < |s| && s[r.value] in s[..r.value] && Distinct(s[..r.value])
    ensures r.None? <==> Distinct(s)
  {
    assert s[..0] == [];
    var r := FirstDuplicateFrom(s, 0);
    if r.Some? then
      RepeatedNotDistinct(s, r.value);
      r
    else r
  }

  lemma RepeatedNotDistinct<K>(s: seq<K>, i: nat)
    requires i < |s| && s[i] in s[..i]
    ensures !Distinct(s)
  {
    var j :| 0 <= j < i && s[..i][j] == s[i];
    assert s[j] == s[i];
  }

  /** pd.unique: the distinct elements, each at its first occurrence. */
  function Unique(s: seq<nat>): (u: seq<nat>)
    ensures Distinct(u)
    ensures forall x :: x in u <==> x in s
    ensures |u| <= |s|
  {
    if |s| == 0 then []
    else
      var v := Unique(s[..|s| - 1]);
      assert forall x :: x in s <==> x in s[..|s| - 1] || x == s[|s| - 1];
      if s[|s| - 1] in v then v else v + [s[|s| - 1]]
  }

  /** The position of the first occurrence of `x` in `s`. */
  function FirstIndex<T(==)>(s: seq<T>, x: T): (i: nat)
    requires x in s
    ensures i < |s| && s[i] == x && x !in s[..i]
  {
    if s[0] == x then 0
    else
      var i := 1 + FirstIndex(s[1..], x);
      assert s[..i] == [s[0]] + s[1..][..i - 1];
      i
  }

  lemma FirstIndexPrefix<T>(s: seq<T>, n: nat, x: T)
    requires n <= |s| && x in s[..n]
    ensures FirstIndex(s, x) == FirstIndex(s[..n], x)
  {
    var i := FirstIndex(s[..n], x);
    assert s[..n][..i] == s[..i];
  }

  /** pd.unique keeps the order of first appearance. */
  lemma {:induction false} UniqueKeepsFirstAppearanceOrder(s: seq<nat>, a: nat, b: nat)
    requires a < b < |Unique(s)|
    ensures FirstIndex(s, Unique(s)[a]) < FirstIndex(s, Unique(s)[b])
    decreases |s|
  {
    var n := |s| - 1;
    var p := s[..n];
    var v := Unique(p);
    var u := Unique(s);
    assert u[a] in s && u[b] in s;
    if b < |v| {
      assert u[a] == v[a] && u[b] == v[b];
      UniqueKeepsFirstAppearanceOrder(p, a, b);
      FirstIndexPrefix(s, n, v[a]);
      FirstIndexPrefix(s, n, v[b]);
    } else {
      assert u[b] == s[n] && s[n] !in v && u[a] == v[a];
      assert u[b] !in p;
      FirstIndexPrefix(s, n, v[a]);
      assert FirstIndex(s, u[b]) == n;
    }
  }

  /** The endpoints of every connection in the order pandas ravels them:
      source, target, source, target, ... */
  function Endpoints(edges: seq<Edge>): (r: seq<nat>)
    ensures |r| == 2 * |edges|
    ensures forall i :: 0 <= i < |edges| ==> r[2 * i] == edges[i].source && r[2 * i + 1] == edges[i].target
  {
    if |edges| == 0 then []
    else Endpoints(edges[..|edges| - 1]) + [edges[|edges| - 1].source, edges[|edges| - 1].target]
  }

  /** A component is in the network when some connection touches it. */
  lemma {:induction false} EndpointsMember(edges: seq<Edge>, c: nat)
    ensures c in Endpoints(edges) <==> exists e :: e in edges && (e.source == c || e.target == c)
  {
    var r := Endpoints(edges);
    if c in r {
      var k :| 0 <= k < |r| && r[k] == c;
      assert edges[k / 2] in edges;
      if k % 2 == 0 { assert r[2 * (k / 2)] == c; } else { assert r[2 * (k / 2) + 1] == c; }
    }
    if e :| e in edges && (e.source == c || e.target == c) {
      var i :| 0 <= i < |edges| && edges[i] == e;
      if e.source == c { assert r[2 * i] == c; } else { assert r[2 * i + 1] == c; }
    }
  }

  /** The (component, port) pairs used as sources and as targets. */
  function SourcePorts(edges: seq<Edge>): (r: seq<(nat, string)>)
    ensures |r| == |edges| && forall i :: 0 <= i < |edges| ==> r[i] == (edges[i].source, edges[i].sourceId)
  {
    seq(|edges|, i requires 0 <= i < |edges| => (edges[i].source, edges[i].sourceId))
  }

  function TargetPorts(edges: seq<Edge>): (r: seq<(nat, string)>)
    ensures |r| == |edges| && forall i :: 0 <= i < |edges| ==> r[i] == (edges[i].target, edges[i].targetId)
  {
    seq(|edges|, i requires 0 <= i < |edges| => (edges[i].target, edges[i].targetId))
  }

  /** The number of connections leaving and entering component `c`. */
  function OutCount(edges: seq<Edge>, c: nat): (n: nat)
    ensures n <= |edges|
    ensures n == 0 <==> forall e :: e in edges ==> e.source != c
  {
    if |edges| == 0 then 0
    else
      var last := edges[|edges| - 1];
      assert forall e :: e in edges <==> e in edges[..|edges| - 1] || e == last;
      OutCount(edges[..|edges| - 1], c) + (if last.source == c then 1 else 0)
  }

  function InCount(edges: seq<Edge>, c: nat): (n: nat)
    ensures n <= |edges|
    ensures n == 0 <==> forall e :: e in edges ==> e.target != c
  {
    if |edges| == 0 then 0
    else
      var last := edges[|edges| - 1];
      assert forall e :: e in edges <==> e in edges[..|edges| - 1] || e == last;
      InCount(edges[..|edges| - 1], c) + (if last.target == c then 1 else 0)
  }

  datatype TopologyError =
    | SourceUsedTwice(edge: nat)
    | TargetUsedTwice(edge: nat)
    | DuplicateLabels(labels: set<string>)
    | MissingOutgoing(name: string, missing: int)
    | MissingIncoming(name: string, missing: int)

  /** Network.check_conns: the first connection that reuses a source port is
      reported, then the first that reuses a target port. */
  function CheckConns(edges: seq<Edge>): (r: Outcome<TopologyError>)
    ensures r.Pass? <==> Distinct(SourcePorts(edges)) && Distinct(TargetPorts(edges))
    ensures r.Fail? && r.error.SourceUsedTwice? ==>
      var i := r.error.edge;
      i < |edges| && Distinct(SourcePorts(edges)[..i])
      && exists j :: 0 <= j < i && edges[j].source == edges[i].source && edges[j].sourceId == edges[i].sourceId
    ensures r.Fail? && r.error.TargetUsedTwice? ==>
      var i := r.error.edge;
      i < |edges| && Distinct(SourcePorts(edges)) && Distinct(TargetPorts(edges)[..i])
      && exists j :: 0 <= j < i && edges[j].target == edges[i].target && edges[j].targetId == edges[i].targetId
    ensures r.Fail? ==> r.error.SourceUsedTwice? || r.error.TargetUsedTwice?
  {
    match FirstDuplicate(SourcePorts(edges))
    case Some(i) =>
      var j :| 0 <= j < i && SourcePorts(edges)[..i][j] == SourcePorts(edges)[i];
      assert SourcePorts(edges)[j] == SourcePorts(edges)[i];
      Fail(SourceUsedTwice(i))
    case None =>
      match FirstDuplicate(TargetPorts(edges))
      case Some(i) =>
        var j :| 0 <= j < i && TargetPorts(edges)[..i][j] == TargetPorts(edges)[i];
        assert TargetPorts(edges)[j] == TargetPorts(edges)[i];
        Fail(TargetUsedTwice(i))
      case None => Pass
  }

  /** The components of the network, in the order the component table of
      init_components lists them. */
  function NetworkComponents(edges: seq<Edge>): (order: seq<nat>)
    ensures Distinct(order)
    ensures forall c :: c in order <==> exists e :: e in edges && (e.source == c || e.target == c)
  {
    EndpointsMembers(edges);
    Unique(Endpoints(edges))
  }

  lemma EndpointsMembers(edges: seq<Edge>)
    ensures forall c :: c in Endpoints(edges) <==> exists e :: e in edges && (e.source == c || e.target == c)
  {
    forall c ensures c in Endpoints(edges) <==> exists e :: e in edges && (e.source == c || e.target == c) {
      EndpointsMember(edges, c);
    }
  }

  lemma NetworkComponentsWithin(comps: seq<Component>, edges: seq<Edge>)
    requires EdgesWithin(comps, edges)
    ensures forall c :: c in NetworkComponents(edges) ==> c < |comps|
    ensures Within(comps, NetworkComponents(edges))
  {
    var order := NetworkComponents(edges);
    forall c | c in order ensures c < |comps| {
      var e :| e in edges && (e.source == c || e.target == c);
    }
    forall k | 0 <= k < |order| ensures order[k] < |comps| {
      assert order[k] in order;
    }
  }

  lemma CountsFromStart(comps: seq<Component>, edges: seq<Edge>, order: seq<nat>)
    requires Within(comps, order)
    ensures CheckCountsFrom(comps, edges, order, 0).Pass? <==> forall c :: c in order ==> CountsMatch(comps, edges, c)
    ensures CheckCountsFrom(comps, edges, order, 0).Fail? ==>
      exists c :: c in order && !CountsMatch(comps, edges, c) && CheckCountsFrom(comps, edges, order, 0).error == CountError(comps, edges, c)
  {
    if CheckCountsFrom(comps, edges, order, 0).Pass? {
      forall c | c in order ensures CountsMatch(comps, edges, c) {
        var i :| 0 <= i < |order| && order[i] == c;
      }
    }
  }

  function Labels(comps: seq<Component>, order: seq<nat>): (labels: seq<string>)
    requires Within(comps, order)
    ensures |labels| == |order| && forall k :: 0 <= k < |order| ==> labels[k] == comps[order[k]].name
  {
    seq(|order|, k requires 0 <= k < |order| => comps[order[k]].name)
  }

  /** The labels occurring more than once, the `duplicates` of
      init_components. */
  function Duplicated(labels: seq<string>): set<string>
  {
    set i, j | 0 <= i < j < |labels| && labels[i] == labels[j] :: labels[i]
  }

  /** The label check of init_components: no two distinct components of the
      network share a label. */
  predicate UniqueLabels(comps: seq<Component>, edges: seq<Edge>)
    requires EdgesWithin(comps, edges)
  {
    forall a, b :: a in NetworkComponents(edges) && b in NetworkComponents(edges) && a != b ==> comps[a].name != comps[b].name
  }

  lemma {:induction false} UniqueLabelsDistinct(comps: seq<Component>, edges: seq<Edge>)
    requires EdgesWithin(comps, edges) && Within(comps, NetworkComponents(edges))
    ensures UniqueLabels(comps, edges) <==> Distinct(Labels(comps, NetworkComponents(edges)))
    ensures !UniqueLabels(comps, edges) ==> Duplicated(Labels(comps, NetworkComponents(edges))) != {}
  {
    var order := NetworkComponents(edges);
    var labels := Labels(comps, order);
    if UniqueLabels(comps, edges) {
      forall i, j | 0 <= i < j < |labels| ensures labels[i] != labels[j] {
        assert order[i] != order[j] && order[i] in order && order[j] in order;
      }
    }
    if !UniqueLabels(comps, edges) {
      var a, b :| a in order && b in order && a != b && comps[a].name == comps[b].name;
      var i :| 0 <= i < |order| && order[i] == a;
      var j :| 0 <= j < |order| && order[j] == b;
      if i < j { assert labels[i] in Duplicated(labels); } else { assert labels[j] in Duplicated(labels); }
    }
  }

  /** The count check of check_network from position `k` of `order` on:
      the first component whose outlets or, failing that, inlets do not
      match its connections is reported with the number missing. */
  function CheckCountsFrom(comps: seq<Component>, edges: seq<Edge>, order: seq<nat>, k: nat): (r: Outcome<TopologyError>)
    requires k <= |order| && Within(comps, order)
    ensures r.Pass? <==> forall i :: k <= i < |order| ==> CountsMatch(comps, edges, order[i])
    ensures r.Fail? ==>
      (exists i :: k <= i < |order| && !CountsMatch(comps, edges, order[i])
        && (forall l :: k <= l < i ==> CountsMatch(comps, edges, order[l]))
        && r.error == CountError(comps, edges, order[i]))
  {
    var i := FirstMismatch(comps, edges, order, k);
    if i == |order| then Pass
    else
      var r := Fail(CountError(comps, edges, order[i]));
      assert k <= i < |order| && !CountsMatch(comps, edges, order[i]) && r.error == CountError(comps, edges, order[i]);
      r
  }

  /** The position of the first component from position `k` on whose
      counts do not match, or the length of `order` when there is none. */
  function FirstMismatch(comps: seq<Component>, edges: seq<Edge>, order: seq<nat>, k: nat): (i: nat)
    requires k <= |order| && Within(comps, order)
    ensures k <= i <= |order|
    ensures forall l :: k <= l < i ==> CountsMatch(comps, edges, order[l])
    ensures i < |order| ==> !CountsMatch(comps, edges, order[i])
    decreases |order| - k
  {
    if k == |order| || !CountsMatch(comps, edges, order[k]) then k
    else FirstMismatch(comps, edges, order, k + 1)
  }

  /** Every position of `order` names a component of the list. */
  predicate Within(comps: seq<Component>, order: seq<nat>)
  {
    forall k :: 0 <= k < |order| ==> order[k] < |comps|
  }

  predicate CountsMatch(comps: seq<Component>, edges: seq<Edge>, c: nat)
    requires c < |comps|
  {
    OutCount(edges, c) == comps[c].numOut && InCount(edges, c) == comps[c].numIn
  }

  /** The outgoing mismatch is reported before the incoming one. */
  function CountError(comps: seq<Component>, edges: seq<Edge>, c: nat): TopologyError
    requires c < |comps|
  {
    if OutCount(edges, c) != comps[c].numOut then MissingOutgoing(comps[c].name, comps[c].numOut - OutCount(edges, c))
    else MissingIncoming(comps[c].name, comps[c].numIn - InCount(edges, c))
  }

  /** What check_network accepts: ports used once, unique labels, and every
      component of the network with exactly its number of inlets and outlets
      connected. */
  predicate WellConnected(comps: seq<Component>, edges: seq<Edge>)
    requires EdgesWithin(comps, edges)
  {
    && Distinct(SourcePorts(edges)) && Distinct(TargetPorts(edges))
    && UniqueLabels(comps, edges)
    && forall c :: c in NetworkComponents(edges) ==> CountsMatch(comps, edges, c)
  }

  /** Network.check_network: ports first, then labels, then counts. */
  function CheckNetwork(comps: seq<Component>, edges: seq<Edge>): (r: Outcome<TopologyError>)
    requires EdgesWithin(comps, edges)
    ensures r.Pass? <==> WellConnected(comps, edges)
    ensures r.Fail? && r.error.DuplicateLabels? ==> CheckConns(edges).Pass? && !UniqueLabels(comps, edges) && r.error.labels != {}
    ensures r.Fail? && r.error.DuplicateLabels? ==>
      Within(comps, NetworkComponents(edges)) && r.error.labels == Duplicated(Labels(comps, NetworkComponents(edges)))
    ensures r.Fail? && (r.error.MissingOutgoing? || r.error.MissingIncoming?) ==>
      CheckConns(edges).Pass? && UniqueLabels(comps, edges)
      && exists c :: c in NetworkComponents(edges) && !CountsMatch(comps, edges, c) && r.error == CountError(comps, edges, c)
    ensures r.Fail? && (r.error.MissingOutgoing? || r.error.MissingIncoming?) ==>
      var order := NetworkComponents(edges);
      && Within(comps, order)
      && var i := FirstMismatch(comps, edges, order, 0);
      && i < |order| && r.error == CountError(comps, edges, order[i])
  {
    var order := NetworkComponents(edges);
    NetworkComponentsWithin(comps, edges);
    UniqueLabelsDistinct(comps, edges);
    var conns := CheckConns(edges);
    if conns.Fail? then conns
    else
      var labels := Labels(comps, order);
      if !Distinct(labels) then Fail(DuplicateLabels(Duplicated(labels)))
      else
        CountsFromStart(comps, edges, order);
        CheckCountsFrom(comps, edges, order, 0)
  }
}
