/** Label requirements: the text "k=v,k=v,..." grouped by key, and the two ways it is matched. */
module Labels {
  import opened BladeTypes
  import opened Texts
  import opened Pods
  import opened Keeping

  /** An `In` requirement. */
  datatype Requirement = Requirement(key: string, values: seq<string>)

  /** One item split at its first '='. None: there is no '='. */
  function Field(item: string): Option<(string, string)> {
    var i := Find(item, '=');
    if i == |item| then None else Some((item[..i], item[i + 1..]))
  }

  /** The key is what stands before the first '=', the value all the rest. */
  lemma FieldIs(item: string, key: string, value: string)
    ensures Field(item) == Some((key, value)) <==> '=' !in key && item == key + "=" + value
    ensures Field(item) == None <==> '=' !in item
  {
    var i := Find(item, '=');
    if i < |item| {
      assert item == item[..i] + "=" + item[i + 1..];
    } else {
      assert item[..i] == item;
    }
    if '=' !in key && item == key + "=" + value {
      FindAt(key, '=', value);
      assert item == key + ['='] + value;
      assert item[..|key|] == key && item[|key| + 1..] == value;
    }
  }

  /** All values the items give for a key, in order. */
  function Values(items: seq<string>, key: string): seq<string> {
    if items == [] then []
    else
      var f := Field(items[|items| - 1]);
      Values(items[..|items| - 1], key) + (if f.Some? && f.value.0 == key then [f.value.1] else [])
  }

  function Lookup(m: map<string, seq<string>>, key: string): seq<string> { if key in m then m[key] else [] }

  ghost predicate Grouped(m: map<string, seq<string>>, items: seq<string>) {
    forall key :: (key in m ==> m[key] != []) && Lookup(m, key) == Values(items, key)
  }

  function Added(m: map<string, seq<string>>, key: string, value: string): map<string, seq<string>> {
    m[key := Lookup(m, key) + [value]]
  }

  lemma ValuesSnoc(items: seq<string>, i: nat, k: string)
    requires i < |items|
    ensures var f := Field(items[i]);
            Values(items[..i + 1], k) == Values(items[..i], k) + (if f.Some? && f.value.0 == k then [f.value.1] else [])
  {
    assert items[..i + 1][..i] == items[..i];
  }

  lemma GroupedSnoc(m: map<string, seq<string>>, items: seq<string>, i: nat, key: string, value: string)
    requires i < |items| && Grouped(m, items[..i]) && Field(items[i]) == Some((key, value))
    ensures Grouped(Added(m, key, value), items[..i + 1])
  {
    var next := Added(m, key, value);
    forall k ensures (k in next ==> next[k] != []) && Lookup(next, k) == Values(items[..i + 1], k) {
      ValuesSnoc(items, i, k);
      assert Lookup(m, k) == Values(items[..i], k);
    }
  }

  method GroupItems(items: seq<string>) returns (m: map<string, seq<string>>)
    ensures Grouped(m, items)
  {
    m := map[];
    for i := 0 to |items|
      invariant Grouped(m, items[..i])
    {
      assert items[..i + 1][..i] == items[..i];
      var f := Field(items[i]);
      if f.None? {
        continue;
      }
      var (key, value) := f.value;
      GroupedSnoc(m, items, i, key, value);
      if key !in m {
        m := m[key := [value]];
      } else {
        m := m[key := m[key] + [value]];
      }
    }
    assert items[..|items|] == items;
  }

  /** What ParseLabels returns, up to order: one requirement for every key that some item mentions and
      that the label library accepts together with its values. */
  ghost predicate Parsed(rs: seq<Requirement>, items: seq<string>, valid: Requirement -> bool) {
    && (forall i :: 0 <= i < |rs| ==> rs[i].values == Values(items, rs[i].key) != [] && valid(rs[i]))
    && (forall i, j :: 0 <= i < j < |rs| ==> rs[i].key != rs[j].key)
    && (forall key :: Values(items, key) != [] && valid(Requirement(key, Values(items, key))) ==>
          Requirement(key, Values(items, key)) in rs)
  }

  /** The items a labels text stands for; the empty text has none. */
  function ItemsOf(labels: string): seq<string> { if labels == "" then [] else Split(labels, ',') }

  /** The keys not yet visited are exactly those whose requirement may still be missing. */
  ghost predicate Visiting(m: map<string, seq<string>>, todo: set<string>, rs: seq<Requirement>, valid: Requirement -> bool) {
    && todo <= m.Keys
    && (forall i :: 0 <= i < |rs| ==> rs[i].key in m.Keys - todo && rs[i].values == m[rs[i].key] && valid(rs[i]))
    && (forall i, j :: 0 <= i < j < |rs| ==> rs[i].key != rs[j].key)
    && (forall key :: key in m.Keys - todo && valid(Requirement(key, m[key])) ==> Requirement(key, m[key]) in rs)
  }

  lemma Visit(m: map<string, seq<string>>, todo: set<string>, rs: seq<Requirement>, valid: Requirement -> bool, key: string)
    requires Visiting(m, todo, rs, valid) && key in todo
    ensures var r := Requirement(key, m[key]); Visiting(m, todo - {key}, if valid(r) then rs + [r] else rs, valid)
  {
    var r := Requirement(key, m[key]);
    var next := if valid(r) then rs + [r] else rs;
    forall k | k in m.Keys - (todo - {key}) && valid(Requirement(k, m[k])) ensures Requirement(k, m[k]) in next {
      if k == key {
        assert r in next;
      } else {
        assert Requirement(k, m[k]) in rs;
      }
    }
  }

  lemma AllVisited(m: map<string, seq<string>>, items: seq<string>, rs: seq<Requirement>, valid: Requirement -> bool)
    requires Grouped(m, items) && Visiting(m, {}, rs, valid)
    ensures Parsed(rs, items, valid)
  {
    forall i | 0 <= i < |rs| ensures rs[i].values == Values(items, rs[i].key) != [] {
      assert Lookup(m, rs[i].key) == Values(items, rs[i].key);
    }
    forall key | Values(items, key) != [] ensures key in m && m[key] == Values(items, key) {
      assert Lookup(m, key) == Values(items, key);
    }
  }

  /** ParseLabels. The second loop ranges over a map, in any order. */
  method ParseLabels(labels: string, valid: Requirement -> bool) returns (rs: seq<Requirement>)
    ensures Parsed(rs, ItemsOf(labels), valid)
  {
    rs := [];
    if labels == "" {
      return;
    }
    var m := GroupItems(Split(labels, ','));
    var todo := m.Keys;
    while todo != {}
      invariant Visiting(m, todo, rs, valid)
      decreases todo
    {
      var key :| key in todo;
      var r := Requirement(key, m[key]);
      Visit(m, todo, rs, valid, key);
      todo := todo - {key};
      if valid(r) {
        rs := rs + [r];
      }
    }
    AllVisited(m, Split(labels, ','), rs, valid);
  }

  predicate Matches(r: Requirement, labels: map<string, string>) {
    r.key in labels && labels[r.key] in r.values
  }

  ghost predicate MatchesSome(rs: seq<Requirement>, labels: map<string, string>) {
    exists r :: r in rs && Matches(r, labels)
  }

  /** How a list selector reads its requirements. */
  ghost predicate MatchesAll(rs: seq<Requirement>, labels: map<string, string>) {
    forall r :: r in rs ==> Matches(r, labels)
  }

  /** How the names path reads them: no requirement accepts every pod, otherwise one match is enough. */
  ghost predicate ByName(rs: seq<Requirement>, labels: map<string, string>) { rs == [] || MatchesSome(rs, labels) }

  /** How the list path reads them: no requirement lists nothing, otherwise all must match. */
  ghost predicate ByList(rs: seq<Requirement>, labels: map<string, string>) { rs != [] && MatchesAll(rs, labels) }

  /** MapContains. A nil label map reads as an empty one: no requirement matches it. */
  method MapContains(labels: map<string, string>, rs: seq<Requirement>) returns (b: bool)
    ensures b <==> MatchesSome(rs, labels)
  {
    for i := 0 to |rs|
      invariant forall j :: 0 <= j < i ==> !Matches(rs[j], labels)
    {
      if Matches(rs[i], labels) {
        return true;
      }
    }
    return false;
  }

  // ---- Grouping by key does not matter ----

  /** Some item reads "key=value". */
  ghost predicate Given(items: seq<string>, key: string, value: string) {
    '=' !in key && exists i :: 0 <= i < |items| && items[i] == key + "=" + value
  }

  ghost predicate Mentioned(items: seq<string>, key: string) { exists value :: Given(items, key, value) }

  lemma GivenSnoc(items: seq<string>, key: string, value: string)
    requires items != []
    ensures Given(items, key, value) <==>
            Given(items[..|items| - 1], key, value) || Field(items[|items| - 1]) == Some((key, value))
  {
    var n := |items| - 1;
    FieldIs(items[n], key, value);
    if i :| 0 <= i < n && items[..n][i] == key + "=" + value {
      assert items[i] == key + "=" + value;
    }
    if i :| 0 <= i < n && items[i] == key + "=" + value {
      assert items[..n][i] == key + "=" + value;
    }
  }

  lemma {:induction false} ValueOfItem(items: seq<string>, key: string, value: string)
    ensures value in Values(items, key) <==> Given(items, key, value)
    decreases |items|
  {
    if items != [] {
      ValueOfItem(items[..|items| - 1], key, value);
      GivenSnoc(items, key, value);
    }
  }

  lemma SomeValue(items: seq<string>, key: string)
    ensures Values(items, key) != [] <==> Mentioned(items, key)
  {
    if Values(items, key) != [] {
      ValueOfItem(items, key, Values(items, key)[0]);
    } else if value :| Given(items, key, value) {
      ValueOfItem(items, key, value);
    }
  }

  /** The requirement of an accepted key. */
  predicate Accepted(items: seq<string>, key: string, valid: Requirement -> bool) {
    valid(Requirement(key, Values(items, key)))
  }

  /** Names path: for some label of the pod there is an item "key=value" that gives just this label, of an
      accepted key. */
  lemma SomeIsScan(rs: seq<Requirement>, items: seq<string>, valid: Requirement -> bool, labels: map<string, string>)
    requires Parsed(rs, items, valid)
    ensures MatchesSome(rs, labels) <==>
            exists key :: key in labels && Given(items, key, labels[key]) && Accepted(items, key, valid)
  {
    if r :| r in rs && Matches(r, labels) {
      ValueOfItem(items, r.key, labels[r.key]);
      assert r == Requirement(r.key, Values(items, r.key));
    }
    if key :| key in labels && Given(items, key, labels[key]) && Accepted(items, key, valid) {
      ValueOfItem(items, key, labels[key]);
      assert Matches(Requirement(key, Values(items, key)), labels);
    }
  }

  /** List path: every accepted key that some item mentions is a label of the pod, and an item gives it. */
  lemma AllIsScan(rs: seq<Requirement>, items: seq<string>, valid: Requirement -> bool, labels: map<string, string>)
    requires Parsed(rs, items, valid)
    ensures MatchesAll(rs, labels) <==>
            forall key :: Mentioned(items, key) && Accepted(items, key, valid) ==>
              key in labels && Given(items, key, labels[key])
  {
    if MatchesAll(rs, labels) {
      forall key | Mentioned(items, key) && Accepted(items, key, valid)
        ensures key in labels && Given(items, key, labels[key])
      {
        SomeValue(items, key);
        assert Matches(Requirement(key, Values(items, key)), labels);
        ValueOfItem(items, key, labels[key]);
      }
    } else {
      var r :| r in rs && !Matches(r, labels);
      assert r == Requirement(r.key, Values(items, r.key));
      SomeValue(items, r.key);
      if r.key in labels {
        ValueOfItem(items, r.key, labels[r.key]);
      }
    }
  }

  /** The list path is the stricter one. */
  lemma AllImpliesSome(rs: seq<Requirement>, labels: map<string, string>)
    requires ByList(rs, labels)
    ensures ByName(rs, labels) && MatchesSome(rs, labels)
  {
    assert rs[0] in rs && Matches(rs[0], labels);
  }

  /** The two paths agree on every label map exactly when a single requirement is left. */
  lemma PathsAgree(rs: seq<Requirement>, items: seq<string>, valid: Requirement -> bool)
    requires Parsed(rs, items, valid)
    ensures |rs| == 1 <==> forall labels :: ByName(rs, labels) <==> ByList(rs, labels)
  {
    if |rs| == 1 {
      forall labels ensures ByName(rs, labels) <==> ByList(rs, labels) {
        assert rs[0] in rs;
      }
    } else if |rs| == 0 {
      assert ByName(rs, map[]) && !ByList(rs, map[]);
    } else {
      var only := map[rs[0].key := rs[0].values[0]];
      assert rs[0] in rs && Matches(rs[0], only);
      assert rs[1] in rs && !Matches(rs[1], only);
      assert ByName(rs, only) && !ByList(rs, only);
    }
  }

  // ---- Querying the pods ----

  /** A pod as the API server lists it. */
  datatype Live = Live(pod: Pod, deleting: bool)

  datatype Answer = Pods(pods: seq<Pod>) | NotFound | BadLabels | ListFailed

  /** A pod found under a name and accepted. A pod on its way out is not left out here. */
  ghost function Found(get: string -> Option<Pod>, rs: seq<Requirement>): string -> Option<Pod> {
    (name: string) => if get(name).Some? && ByName(rs, get(name).value.labels) then get(name) else None
  }

  /** The pods found under the names, in that order. */
  ghost function Named(names: seq<string>, get: string -> Option<Pod>, rs: seq<Requirement>): seq<Pod> {
    Kept(names, Found(get, rs))
  }

  function Stays(p: Live): Option<Pod> { if p.deleting then None else Some(p.pod) }

  /** The listed pods that are not being deleted, in the order of the list. */
  function Staying(list: seq<Live>): seq<Pod> { Kept(list, Stays) }

  method QueryNames(names: seq<string>, get: string -> Option<Pod>, rs: seq<Requirement>) returns (pods: seq<Pod>)
    ensures pods == Named(names, get, rs)
  {
    pods := [];
    for i := 0 to |names|
      invariant pods == Named(names[..i], get, rs)
    {
      KeptSnoc(names, i, Found(get, rs));
      var p := get(names[i]);
      if p.None? {
        continue;
      }
      if |rs| > 0 {
        var ok := MapContains(p.value.labels, rs);
        if ok {
          pods := pods + [p.value];
        }
      } else {
        pods := pods + [p.value];
      }
    }
    assert names[..|names|] == names;
  }

  method QueryList(list: seq<Live>) returns (pods: seq<Pod>)
    ensures pods == Staying(list)
  {
    pods := [];
    for i := 0 to |list|
      invariant pods == Staying(list[..i])
    {
      KeptSnoc(list, i, Stays);
      if list[i].deleting {
        continue;
      }
      pods := pods + [list[i].pod];
    }
    assert list[..|list|] == list;
  }

  /** What the query answers, given the requirements the labels text stands for. */
  ghost predicate Answered(r: Answer, rs: seq<Requirement>, names: string, labels: string,
                           get: string -> Option<Pod>, list: seq<Requirement> -> Option<seq<Live>>) {
    if names != "" then
      var pods := Named(Split(names, ','), get, rs);
      r == if pods == [] then NotFound else Pods(pods)
    else if rs == [] then r == if labels == "" then Pods([]) else BadLabels
    else if list(rs).None? then r == ListFailed
    else r == if list(rs).value == [] then NotFound else Pods(Staying(list(rs).value))
  }

  /** resourceFunc: `get` and `list` are what the API server answers; None is an error. */
  method Query(names: string, labels: string, valid: Requirement -> bool,
               get: string -> Option<Pod>, list: seq<Requirement> -> Option<seq<Live>>)
    returns (r: Answer)
    ensures exists rs :: Parsed(rs, ItemsOf(labels), valid) && Answered(r, rs, names, labels, get, list)
  {
    var reqs := ParseLabels(labels, valid);
    r := QueryParsed(names, labels, reqs, get, list);
  }

  method QueryParsed(names: string, labels: string, reqs: seq<Requirement>,
                     get: string -> Option<Pod>, list: seq<Requirement> -> Option<seq<Live>>)
    returns (r: Answer)
    ensures Answered(r, reqs, names, labels, get, list)
  {
    var pods: seq<Pod> := [];
    if names != "" {
      pods := QueryNames(Split(names, ','), get, reqs);
      if pods == [] {
        return NotFound;
      }
      return Pods(pods);
    }
    if labels != "" && |reqs| == 0 {
      return BadLabels;
    }
    if |reqs| > 0 {
      var found := list(reqs);
      if found.None? {
        return ListFailed;
      }
      if found.value == [] {
        return NotFound;
      }
      pods := QueryList(found.value);
    }
    return Pods(pods);
  }

  /** A pod is queried by name exactly if one of the names leads to it and some well-formed item of an
      accepted key, if there is one, is among its labels. */
  lemma NamedAre(names: seq<string>, get: string -> Option<Pod>, rs: seq<Requirement>, p: Pod)
    ensures p in Named(names, get, rs) <==>
            (exists i :: 0 <= i < |names| && get(names[i]) == Some(p)) && ByName(rs, p.labels)
  {
    KeptHas(names, Found(get, rs), p);
    if ByName(rs, p.labels) {
      if i :| 0 <= i < |names| && get(names[i]) == Some(p) {
        assert Found(get, rs)(names[i]) == Some(p);
      }
    }
  }

  /** And in the order of the names, each for its own name. */
  lemma NamedInOrder(names: seq<string>, get: string -> Option<Pod>, rs: seq<Requirement>) returns (at: seq<nat>)
    ensures |at| == |Named(names, get, rs)| && Rising(at)
    ensures forall k :: 0 <= k < |at| ==> at[k] < |names| && get(names[at[k]]) == Some(Named(names, get, rs)[k])
  {
    at := KeptEach(names, Found(get, rs));
    forall k | 0 <= k < |at| ensures get(names[at[k]]) == Some(Named(names, get, rs)[k]) {
      assert Found(get, rs)(names[at[k]]) == Some(Named(names, get, rs)[k]);
    }
  }

  lemma StayingAre(list: seq<Live>, p: Pod)
    ensures p in Staying(list) <==> Live(p, false) in list
  {
    KeptHas(list, Stays, p);
    if i :| 0 <= i < |list| && list[i] == Live(p, false) {
      assert Stays(list[i]) == Some(p);
    }
  }

  /** And in the order of the list. */
  lemma StayingInOrder(list: seq<Live>) returns (at: seq<nat>)
    ensures |at| == |Staying(list)| && Rising(at)
    ensures forall k :: 0 <= k < |at| ==> at[k] < |list| && list[at[k]] == Live(Staying(list)[k], false)
  {
    at := KeptEach(list, Stays);
    forall k | 0 <= k < |at| ensures list[at[k]] == Live(Staying(list)[k], false) {
      assert Stays(list[at[k]]) == Some(Staying(list)[k]);
    }
  }

  /** The same pod asked for both ways, with the server listing exactly what matches every requirement:
      the list path finds it only if the names path does too. The converse fails for a pod that is being
      deleted, and for one that matches some but not every key. */
  lemma ListedIsNamed(names: seq<string>, get: string -> Option<Pod>, rs: seq<Requirement>, listed: seq<Live>, live: Live)
    requires rs != [] && get(live.pod.name) == Some(live.pod) && live.pod.name in names
    requires live in listed <==> MatchesAll(rs, live.pod.labels)
    requires Live(live.pod, !live.deleting) !in listed
    ensures live.pod in Staying(listed) <==> !live.deleting && MatchesAll(rs, live.pod.labels)
    ensures live.pod in Staying(listed) ==> live.pod in Named(names, get, rs)
  {
    StayingAre(listed, live.pod);
    NamedAre(names, get, rs, live.pod);
    if MatchesAll(rs, live.pod.labels) {
      AllImpliesSome(rs, live.pod.labels);
    }
    assert live.deleting ==> Live(live.pod, !live.deleting) == Live(live.pod, false);
    assert !live.deleting ==> live == Live(live.pod, false);
  }
}
