/** Resource identifiers: printed into a status on create, parsed back on destroy. */
module Identifiers {
  import opened Texts

  datatype Meta = Meta(
    id: string,               // uid of the experiment on this target, not printed
    runtime: string, containerId: string, containerName: string,
    podName: string, nodeName: string, namespace: string)

  /** strings.SplitN(s, "/", n). */
  function SplitN(s: string, n: nat): (r: seq<string>)
    requires n >= 1
    ensures 1 <= |r| <= n
    decreases n
  {
    var i := Find(s, '/');
    if n == 1 || i == |s| then [s] else [s[..i]] + SplitN(s[i + 1..], n - 1)
  }

  function Join(parts: seq<string>): string
    requires parts != []
  {
    Joined(parts, '/')
  }

  function Extend(s: string, field: string): string { if field == "" then s else s + "/" + field }

  /** GetIdentifier: namespace, node and pod always, the other three only when not empty. */
  function Print(m: Meta): string {
    Extend(Extend(Extend(m.namespace + "/" + m.nodeName + "/" + m.podName, m.containerName), m.containerId), m.runtime)
  }

  function Part(ss: seq<string>, i: nat): string { if i < |ss| then ss[i] else "" }

  /** ParseIdentifier: part i of six, empty when missing. */
  function Parse(s: string): Meta {
    var ss := SplitN(s, 6);
    Meta("", Part(ss, 5), Part(ss, 4), Part(ss, 3), Part(ss, 2), Part(ss, 1), Part(ss, 0))
  }

  lemma {:induction false} JoinSplit(s: string, n: nat)
    requires n >= 1
    ensures Join(SplitN(s, n)) == s
    decreases n
  {
    var i := Find(s, '/');
    if n > 1 && i < |s| {
      JoinSplit(s[i + 1..], n - 1);
      var r := SplitN(s, n);
      assert r[1..] == SplitN(s[i + 1..], n - 1);
      assert s == s[..i] + "/" + s[i + 1..];
    }
  }

  lemma {:induction false} SplitClean(s: string, n: nat, i: nat)
    requires n >= 1 && i < |SplitN(s, n)| && i + 1 < n
    ensures '/' !in SplitN(s, n)[i]
    decreases n
  {
    if i > 0 {
      SplitClean(s[Find(s, '/') + 1..], n - 1, i - 1);
    } else {
      assert s[..|s|] == s;
    }
  }

  lemma SlashAt(p: string, rest: string)
    ensures '/' !in p ==> Find(p + "/" + rest, '/') == |p|
    ensures '/' !in p ==> Find(p, '/') == |p|
  {
    var s := p + "/" + rest;
    assert forall j :: 0 <= j < |p| ==> s[j] == p[j];
    assert s[|p|] == '/';
  }

  /** Every part but the n-th is free of separators. */
  ghost predicate Separable(parts: seq<string>, n: nat) {
    parts == [] || ((n > 1 ==> '/' !in parts[0]) && (n > 0 ==> Separable(parts[1..], n - 1)))
  }

  lemma {:induction false} SplitJoin(parts: seq<string>, n: nat)
    requires 1 <= |parts| <= n && Separable(parts, n)
    ensures SplitN(Join(parts), n) == parts
    decreases n
  {
    var p := parts[0];
    SlashAt(p, "");
    if |parts| == 1 {
      assert parts == [p] && Join(parts) == p;
    } else {
      var rest := parts[1..];
      SlashAt(p, Join(rest));
      SplitJoin(rest, n - 1);
      SplitHead(p, Join(rest), n);
      assert Join(parts) == p + "/" + Join(rest);
      assert parts == [p] + rest;
    }
  }

  lemma SplitHead(p: string, rest: string, n: nat)
    requires n > 1 && Find(p + "/" + rest, '/') == |p|
    ensures SplitN(p + "/" + rest, n) == [p] + SplitN(rest, n - 1)
  {
    var s := p + "/" + rest;
    assert s[..|p|] == p && s[|p| + 1..] == rest;
  }

  lemma {:induction false} JoinSnoc(parts: seq<string>, x: string)
    requires parts != []
    ensures Join(parts + [x]) == Join(parts) + "/" + x
    decreases |parts|
  {
    var all := parts + [x];
    if |parts| == 1 {
      assert all[1..] == [x] && all[0] == parts[0];
      assert Join(all) == parts[0] + ['/'] + Join([x]);
    } else {
      assert all[1..] == parts[1..] + [x];
      JoinSnoc(parts[1..], x);
    }
  }

  lemma Join3(a: string, b: string, c: string)
    ensures Join([a, b, c]) == a + "/" + b + "/" + c
  {
    JoinSnoc([a], b);
    assert [a, b, c] == [a, b] + [c] && [a, b] == [a] + [b];
    JoinSnoc([a, b], c);
  }

  /** A split with nothing empty after its third part prints as it was. */
  lemma {:induction false} PrintFull(ss: seq<string>, m: Meta)
    requires 3 <= |ss| <= 6
    requires m.namespace == ss[0] && m.nodeName == ss[1] && m.podName == ss[2]
    requires m.containerName == (if |ss| > 3 then ss[3] else "")
    requires m.containerId == (if |ss| > 4 then ss[4] else "")
    requires m.runtime == (if |ss| > 5 then ss[5] else "")
    requires forall i :: 3 <= i < |ss| ==> ss[i] != ""
    ensures Print(m) == Join(ss)
    decreases |ss|
  {
    if |ss| == 3 {
      assert ss == [ss[0], ss[1], ss[2]];
      Join3(ss[0], ss[1], ss[2]);
    } else {
      var k := |ss| - 1;
      var m' := if k == 3 then m.(containerName := "") else if k == 4 then m.(containerId := "") else m.(runtime := "");
      PrintFull(ss[..k], m');
      assert ss == ss[..k] + [ss[k]];
      JoinSnoc(ss[..k], ss[k]);
    }
  }

  function Size(field: string): nat { if field == "" then 0 else |field| + 1 }

  lemma PrintSize(m: Meta)
    ensures |Print(m)| == |m.namespace| + |m.nodeName| + |m.podName| + 2
                          + Size(m.containerName) + Size(m.containerId) + Size(m.runtime)
  {
  }

  function JoinSize(parts: seq<string>): nat {
    if parts == [] then 0 else |parts[0]| + 1 + JoinSize(parts[1..])
  }

  lemma {:induction false} SizeOfJoin(parts: seq<string>)
    requires parts != []
    ensures |Join(parts)| + 1 == JoinSize(parts)
    decreases |parts|
  {
    if |parts| > 1 {
      SizeOfJoin(parts[1..]);
    } else {
      assert JoinSize(parts[1..]) == 0;
    }
  }

  /** The size of a split list, read off its parts from position i on. */
  lemma {:induction false} SizeFrom(ss: seq<string>, i: nat)
    requires i <= |ss|
    ensures i < |ss| ==> JoinSize(ss[i..]) == |ss[i]| + 1 + JoinSize(ss[i + 1..])
    ensures i == |ss| ==> JoinSize(ss[i..]) == 0
  {
    if i < |ss| {
      assert ss[i..][1..] == ss[i + 1..];
    }
  }

  function PartSize(ss: seq<string>, i: nat): nat { if i < |ss| then |ss[i]| + 1 else 0 }

  lemma SplitSize(s: string)
    ensures var ss := SplitN(s, 6);
            |s| + 1 == PartSize(ss, 0) + PartSize(ss, 1) + PartSize(ss, 2)
                       + PartSize(ss, 3) + PartSize(ss, 4) + PartSize(ss, 5)
  {
    var ss := SplitN(s, 6);
    JoinSplit(s, 6);
    SizeOfJoin(ss);
    assert ss[0..] == ss;
    SizeFrom(ss, 0);
    SizeFrom(ss, 1);
    if |ss| > 1 { SizeFrom(ss, 2); }
    if |ss| > 2 { SizeFrom(ss, 3); }
    if |ss| > 3 { SizeFrom(ss, 4); }
    if |ss| > 4 { SizeFrom(ss, 5); }
    if |ss| > 5 { SizeFrom(ss, 6); }
  }

  /** What printing part i back takes; less than it took before if the part is there but empty. */
  lemma PartBack(ss: seq<string>, i: nat)
    ensures Size(Part(ss, i)) <= PartSize(ss, i)
    ensures i < |ss| && ss[i] == "" ==> Size(Part(ss, i)) < PartSize(ss, i)
  {
  }

  lemma ParsedSize(s: string)
    ensures var ss := SplitN(s, 6);
            |Print(Parse(s))| == |Part(ss, 0)| + |Part(ss, 1)| + |Part(ss, 2)| + 2
                                 + Size(Part(ss, 3)) + Size(Part(ss, 4)) + Size(Part(ss, 5))
  {
    PrintSize(Parse(s));
  }

  ghost predicate Printable(s: string) {
    var ss := SplitN(s, 6);
    |ss| >= 3 && forall i :: 3 <= i < |ss| ==> ss[i] != ""
  }

  lemma PrintLonger(s: string)
    requires !Printable(s)
    ensures |Print(Parse(s))| != |s|
  {
    var ss := SplitN(s, 6);
    ParsedSize(s);
    SplitSize(s);
    PartBack(ss, 3);
    PartBack(ss, 4);
    PartBack(ss, 5);
    if |ss| >= 3 {
      var i :| 3 <= i < |ss| && ss[i] == "";
      assert i == 3 || i == 4 || i == 5;
    }
  }

  /** print(parse(s)) == s exactly for identifiers of at least three parts, non-empty after the third. */
  lemma PrintParse(s: string)
    ensures Print(Parse(s)) == s <==> Printable(s)
  {
    if Printable(s) {
      JoinSplit(s, 6);
      PrintFull(SplitN(s, 6), Parse(s));
    } else {
      PrintLonger(s);
    }
  }

  /** Fields without '/' where it would be taken for a separator, and no gap among the optional ones. */
  predicate Printed(m: Meta) {
    && '/' !in m.namespace && '/' !in m.nodeName && '/' !in m.podName
    && '/' !in m.containerName && '/' !in m.containerId
    && (m.containerId != "" ==> m.containerName != "")
    && (m.runtime != "" ==> m.containerId != "")
  }

  /** The parts of a well-formed meta, in printing order. */
  function Parts(m: Meta): (r: seq<string>)
    requires Printed(m)
    ensures 3 <= |r| <= 6 && r[0] == m.namespace && r[1] == m.nodeName && r[2] == m.podName
    ensures m.containerName == (if |r| > 3 then r[3] else "")
    ensures m.containerId == (if |r| > 4 then r[4] else "")
    ensures m.runtime == (if |r| > 5 then r[5] else "")
    ensures forall i :: 3 <= i < |r| ==> r[i] != ""
  {
    var three := [m.namespace, m.nodeName, m.podName];
    if m.containerName == "" then three
    else if m.containerId == "" then three + [m.containerName]
    else if m.runtime == "" then three + [m.containerName, m.containerId]
    else three + [m.containerName, m.containerId, m.runtime]
  }

  lemma {:induction false} SeparableIf(parts: seq<string>, n: nat)
    requires forall i :: 0 <= i < |parts| && i + 1 < n ==> '/' !in parts[i]
    ensures Separable(parts, n)
    decreases |parts|
  {
    if parts != [] && n > 0 {
      SeparableIf(parts[1..], n - 1);
    }
  }

  lemma ParsePrinted(m: Meta)
    requires Printed(m)
    ensures Parse(Print(m)) == m.(id := "")
  {
    PrintFull(Parts(m), m);
    SeparableIf(Parts(m), 6);
    SplitJoin(Parts(m), 6);
  }

  lemma PrintedParse(s: string)
    requires Printable(s)
    ensures Printed(Parse(s))
  {
    var ss := SplitN(s, 6);
    forall i | 0 <= i < |ss| && i < 5 ensures '/' !in ss[i] {
      SplitClean(s, 6, i);
    }
  }

  /** parse(print(m)) gives m back, up to the uid, exactly for such metas. */
  lemma ParsePrint(m: Meta)
    ensures Parse(Print(m)) == m.(id := "") <==> Printed(m)
  {
    if Printed(m) {
      ParsePrinted(m);
    } else if Parse(Print(m)) == m.(id := "") {
      PrintParse(Print(m));
      PrintedParse(Print(m));
    }
  }

  /** The parts of a printed identifier: namespace, node and pod, then container name, container id and
      runtime as far as they go. */
  lemma PrintedParts(m: Meta)
    requires Printed(m)
    ensures var ss := SplitN(Print(m), 6);
            && |ss| >= 3 && ss[0] == m.namespace && ss[1] == m.nodeName && ss[2] == m.podName
            && m.containerName == (if |ss| > 3 then ss[3] else "")
            && m.containerId == (if |ss| > 4 then ss[4] else "")
            && m.runtime == (if |ss| > 5 then ss[5] else "")
  {
    PrintFull(Parts(m), m);
    SeparableIf(Parts(m), 6);
    SplitJoin(Parts(m), 6);
  }
}
