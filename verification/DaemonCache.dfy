/** The table from node to the name of the tool pod on it, refreshed from a listing when an entry is
    missing or its pod is gone. */
module DaemonCache {
  import opened BladeTypes

  /** A pod of the tool's namespace; `tool` says that it carries the labels of the daemonset. */
  datatype ToolPod = ToolPod(name: string, node: string, tool: bool)

  type Names = map<string, string>

  /** DaemonsetPodNames[node]: a missing entry reads as the empty string. */
  function NameOn(names: Names, node: string): string { if node in names then names[node] else "" }

  /** The table a listing gives; of two pods on one node the later one is kept. */
  function Table(pods: seq<ToolPod>): Names {
    if pods == [] then map[]
    else
      var p := pods[|pods| - 1];
      Table(pods[..|pods| - 1])[p.node := p.name]
  }

  /** What a call does to the table: `there` is whether the cached pod was found, `listing` the answer to
      the list request (None: an error). The answer is None for an error. */
  function After(names: Names, node: string, there: bool, listing: Option<seq<ToolPod>>): Names {
    if NameOn(names, node) != "" && there then names else if listing.Some? then Table(listing.value) else names
  }

  function Reply(names: Names, node: string, there: bool, listing: Option<seq<ToolPod>>): Option<string> {
    if NameOn(names, node) != "" && there then Some(NameOn(names, node))
    else if listing.Some? then Some(NameOn(Table(listing.value), node)) else None
  }

  class Cache {
    var names: Names

    constructor ()
      ensures names == map[]
    {
      names := map[];
    }

    /** refreshChaosBladeDaemonsetPodNames: replaces the table, or leaves it on an error. */
    method Refresh(listing: Option<seq<ToolPod>>) returns (ok: bool)
      modifies this
      ensures ok <==> listing.Some?
      ensures names == if ok then Table(listing.value) else old(names)
    {
      if listing.None? {
        return false;
      }
      var table: Names := map[];
      var pods := listing.value;
      for i := 0 to |pods|
        invariant table == Table(pods[..i])
      {
        assert pods[..i + 1][..i] == pods[..i];
        table := table[pods[i].node := pods[i].name];
      }
      assert pods[..|pods|] == pods;
      names := table;
      return true;
    }

    /** GetChaosBladeDaemonsetPodName. */
    method PodName(node: string, there: bool, listing: Option<seq<ToolPod>>) returns (r: Option<string>)
      modifies this
      ensures names == After(old(names), node, there, listing)
      ensures r == Reply(old(names), node, there, listing)
    {
      var podName := NameOn(names, node);
      if podName == "" {
        var ok := Refresh(listing);
        return if ok then Some(NameOn(names, node)) else None;
      }
      if there {
        return Some(podName);
      }
      var ok := Refresh(listing);
      return if ok then Some(NameOn(names, node)) else None;
    }
  }

  // ---- Runs of calls while the cluster changes ----

  /** The pods of the namespace now, every pod there ever was, and the table. */
  datatype Sys = Sys(pods: set<ToolPod>, ever: set<ToolPod>, names: Names)

  datatype Event =
    | Change(pods: set<ToolPod>)
    | Call(node: string, there: bool, listing: Option<seq<ToolPod>>)

  /** Pods have names; the server finds a pod only if there is one, and lists exactly the tool pods. */
  ghost predicate Enabled(s: Sys, e: Event) {
    match e
    case Change(pods) => forall p :: p in pods ==> p.name != ""
    case Call(node, there, listing) =>
      && (there ==> exists p :: p in s.pods && p.name == NameOn(s.names, node))
      && (listing.Some? ==> forall p :: p in listing.value <==> p in s.pods && p.tool)
  }

  function Next(s: Sys, e: Event): Sys {
    match e
    case Change(pods) => s.(pods := pods, ever := s.ever + pods)
    case Call(node, there, listing) => s.(names := After(s.names, node, there, listing))
  }

  ghost predicate Legal(s: Sys, es: seq<Event>) {
    es == [] || (Legal(s, es[..|es| - 1]) && Enabled(Run(s, es[..|es| - 1]), es[|es| - 1]))
  }

  function Run(s: Sys, es: seq<Event>): Sys {
    if es == [] then s else Next(Run(s, es[..|es| - 1]), es[|es| - 1])
  }

  const START := Sys({}, {}, map[])

  /** Every entry names a tool pod that was on that node at some time. */
  ghost predicate Inv(s: Sys) {
    && s.pods <= s.ever
    && (forall p :: p in s.ever ==> p.name != "")
    && (forall node :: node in s.names ==> ToolPod(s.names[node], node, true) in s.ever)
  }

  lemma {:induction false} TableIsListing(pods: seq<ToolPod>, node: string)
    ensures node in Table(pods) <==> exists p :: p in pods && p.node == node
    ensures node in Table(pods) ==> exists p :: p in pods && p.node == node && p.name == Table(pods)[node]
    decreases |pods|
  {
    if pods != [] {
      var n := |pods| - 1;
      TableIsListing(pods[..n], node);
      assert pods == pods[..n] + [pods[n]];
      if pods[n].node == node {
        assert pods[n] in pods;
      } else if node in Table(pods) {
        var p :| p in pods[..n] && p.node == node && p.name == Table(pods[..n])[node];
        assert p in pods;
      }
      if p :| p in pods && p.node == node {
        if pods[n].node != node {
          assert p in pods[..n];
        }
      }
    }
  }

  /** Of several pods on a node the last one listed is kept. */
  lemma {:induction false} LastIsKept(pods: seq<ToolPod>, i: nat)
    requires i < |pods| && forall j :: i < j < |pods| ==> pods[j].node != pods[i].node
    ensures NameOn(Table(pods), pods[i].node) == pods[i].name
    decreases |pods|
  {
    var n := |pods| - 1;
    if i < n {
      assert forall j :: 0 <= j < n ==> pods[..n][j] == pods[j];
      LastIsKept(pods[..n], i);
    }
  }

  lemma NextKeeps(s: Sys, e: Event)
    requires Inv(s) && Enabled(s, e)
    ensures Inv(Next(s, e))
  {
    if e.Call? && Next(s, e).names != s.names {
      var table := Table(e.listing.value);
      forall node | node in table ensures ToolPod(table[node], node, true) in s.ever {
        TableIsListing(e.listing.value, node);
        var p :| p in e.listing.value && p.node == node && p.name == table[node];
        assert p == ToolPod(table[node], node, true);
      }
    }
  }

  lemma {:induction false} RunKeeps(es: seq<Event>)
    requires Legal(START, es)
    ensures Inv(Run(START, es))
    decreases |es|
  {
    if es != [] {
      RunKeeps(es[..|es| - 1]);
      NextKeeps(Run(START, es[..|es| - 1]), es[|es| - 1]);
    }
  }

  /** No name was ever used on two nodes. */
  ghost predicate NeverReused(s: Sys) {
    forall p, q :: p in s.ever && q in s.ever && p.name == q.name ==> p.node == q.node
  }

  /** The reply to a call made after any run of calls and cluster changes. An empty reply means that there
      is no tool pod on the node now. Any other names a pod that exists now, and one on that node if names
      are never reused on another. */
  lemma ReplySound(es: seq<Event>, node: string, there: bool, listing: Option<seq<ToolPod>>)
    requires Legal(START, es) && Enabled(Run(START, es), Call(node, there, listing))
    ensures var s := Run(START, es);
            var r := Reply(s.names, node, there, listing);
            && (r.None? <==> listing.None? && !(there && NameOn(s.names, node) != ""))
            && (r == Some("") ==> listing.Some? && forall p :: p in s.pods && p.tool ==> p.node != node)
            && (r.Some? && r.value != "" ==>
                  (exists p :: p in s.pods && p.name == r.value && (NeverReused(s) ==> p.node == node)))
  {
    var s := Run(START, es);
    RunKeeps(es);
    if NameOn(s.names, node) != "" && there {
      var p :| p in s.pods && p.name == NameOn(s.names, node);
      assert ToolPod(s.names[node], node, true) in s.ever;
    } else if listing.Some? {
      TableIsListing(listing.value, node);
      if node in Table(listing.value) {
        var p :| p in listing.value && p.node == node && p.name == Table(listing.value)[node];
        assert p in s.pods && p.name != "";
      }
    }
  }

  ghost predicate UniqueNames(pods: set<ToolPod>) {
    forall p, q :: p in pods && q in pods && p.name == q.name ==> p == q
  }

  /** The pod now carrying the cached name is on another node: the name was reused. */
  ghost predicate Reused(s: Sys, node: string) {
    exists p :: p in s.pods && p.name == NameOn(s.names, node) && p.node != node
  }

  /** A reply that names a pod names one on the node now, exactly unless it came from the table and the
      name has been reused on another node; a reply from a fresh listing always does. */
  lemma ReplyOnNode(es: seq<Event>, node: string, there: bool, listing: Option<seq<ToolPod>>)
    requires Legal(START, es) && Enabled(Run(START, es), Call(node, there, listing))
    requires UniqueNames(Run(START, es).pods)
    requires var r := Reply(Run(START, es).names, node, there, listing); r.Some? && r.value != ""
    ensures var s := Run(START, es);
            var r := Reply(s.names, node, there, listing).value;
            (exists p :: p in s.pods && p.name == r && p.node == node)
            <==> !(there && NameOn(s.names, node) != "" && Reused(s, node))
  {
    var s := Run(START, es);
    if there && NameOn(s.names, node) != "" {
      var p :| p in s.pods && p.name == NameOn(s.names, node);
      if p.node != node {
        assert Reused(s, node);
      }
    } else {
      TableIsListing(listing.value, node);
      var p :| p in listing.value && p.node == node && p.name == Table(listing.value)[node];
      assert p in s.pods;
    }
  }

  /** With a name reused on another node the reply can be wrong: the pod found is not on the node. */
  lemma ReuseMisleads()
    ensures var a := ToolPod("t", "n1", true);
            var b := ToolPod("t", "n2", true);
            var es := [Change({a}), Call("n1", false, Some([a])), Change({b})];
            && Legal(START, es) && Enabled(Run(START, es), Call("n1", true, None))
            && Reply(Run(START, es).names, "n1", true, None) == Some("t")
            && forall p :: p in Run(START, es).pods ==> p.node != "n1"
  {
    var a := ToolPod("t", "n1", true);
    var b := ToolPod("t", "n2", true);
    var e1 := Change({a});
    var e2 := Call("n1", false, Some([a]));
    var e3 := Change({b});
    assert [e1, e2, e3][..2] == [e1, e2] && [e1, e2][..1] == [e1] && [e1][..0] == [];
    assert Run(START, [e1]) == Sys({a}, {a}, map[]);
    assert Table([a]) == map["n1" := "t"] by { assert [a][..0] == []; }
    assert Legal(START, [e1]) && Legal(START, [e1, e2]);
    assert Run(START, [e1, e2]) == Sys({a}, {a}, map["n1" := "t"]);
    assert Run(START, [e1, e2, e3]).names == map["n1" := "t"] && Run(START, [e1, e2, e3]).pods == {b};
    assert b in {b};
  }
}
