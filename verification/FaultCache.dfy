/** The fault rules of the file-system hook: a table from hooked method to the last rule stored for it,
    filled by inject requests, emptied by recover requests, read by every file-system call. */
module FaultCache {
  import opened BladeTypes

  datatype Message = Message(methods: seq<string>, path: string, delay: nat, percent: nat, random: bool, errno: nat)

  type Cache = map<string, Message>

  /** defaultHookPoints. */
  const HOOK_POINTS: seq<string> := [
    "read", "write", "mkdir", "rmdir", "opendir", "fsync", "flush", "release", "truncate", "getattr",
    "chown", "utimens", "allocate", "getlk", "setlk", "setlkw", "statfs", "readlink", "symlink", "create",
    "access", "link", "mknod", "rename", "unlink", "getxattr", "listxattr", "removexattr", "setxattr"]

  /** One access to the shared table. */
  datatype Step = Store(key: string, msg: Message) | Delete(key: string)

  function Apply(c: Cache, s: Step): Cache {
    match s
    case Store(key, msg) => c[key := msg]
    case Delete(key) => c - {key}
  }

  function ApplyAll(c: Cache, steps: seq<Step>): Cache {
    if steps == [] then c else Apply(ApplyAll(c, steps[..|steps| - 1]), steps[|steps| - 1])
  }

  function StoresOf(msg: Message): (r: seq<Step>)
    ensures |r| == |msg.methods| && forall i :: 0 <= i < |r| ==> r[i] == Store(msg.methods[i], msg)
  {
    seq(|msg.methods|, i requires 0 <= i < |msg.methods| => Store(msg.methods[i], msg))
  }

  function DeletesOf(keys: seq<string>): (r: seq<Step>)
    ensures |r| == |keys| && forall i :: 0 <= i < |r| ==> r[i] == Delete(keys[i])
  {
    seq(|keys|, i requires 0 <= i < |keys| => Delete(keys[i]))
  }

  function Recovering(): seq<Step> { DeletesOf(HOOK_POINTS) }

  function Rule(c: Cache, key: string): Option<Message> { if key in c then Some(c[key]) else None }

  lemma {:induction false} Deleted(c: Cache, keys: seq<string>, key: string)
    ensures Rule(ApplyAll(c, DeletesOf(keys)), key) == if key in keys then None else Rule(c, key)
    decreases |keys|
  {
    if keys != [] {
      var n := |keys| - 1;
      Deleted(c, keys[..n], key);
      assert DeletesOf(keys)[..n] == DeletesOf(keys[..n]);
      assert keys == keys[..n] + [keys[n]];
    }
  }

  lemma {:induction false} Injected(c: Cache, msg: Message, n: nat, key: string)
    requires n <= |msg.methods|
    ensures Rule(ApplyAll(c, StoresOf(msg)[..n]), key) == if key in msg.methods[..n] then Some(msg) else Rule(c, key)
    decreases n
  {
    if n > 0 {
      Injected(c, msg, n - 1, key);
      assert StoresOf(msg)[..n][..n - 1] == StoresOf(msg)[..n - 1];
      assert msg.methods[..n] == msg.methods[..n - 1] + [msg.methods[n - 1]];
    }
  }

  // ---- One request at a time ----

  class Server {
    var cache: Cache

    constructor ()
      ensures cache == map[]
    {
      cache := map[];
    }

    /** InjectHandler; body is None when it does not decode. */
    method Inject(body: Option<Message>) returns (ok: bool)
      modifies this
      ensures ok <==> body.Some?
      ensures body.None? ==> cache == old(cache)
      ensures body.Some? ==> cache == ApplyAll(old(cache), StoresOf(body.value))
      ensures body.Some? ==> forall key ::
                Rule(cache, key) == if key in body.value.methods then body else Rule(old(cache), key)
    {
      if body.None? {
        return false;
      }
      var msg := body.value;
      for i := 0 to |msg.methods|
        invariant cache == ApplyAll(old(cache), StoresOf(msg)[..i])
      {
        assert StoresOf(msg)[..i + 1][..i] == StoresOf(msg)[..i];
        cache := cache[msg.methods[i] := msg];
      }
      assert StoresOf(msg)[..|msg.methods|] == StoresOf(msg);
      assert msg.methods[..|msg.methods|] == msg.methods;
      forall key ensures Rule(cache, key) == if key in msg.methods then body else Rule(old(cache), key) {
        Injected(old(cache), msg, |msg.methods|, key);
      }
      return true;
    }

    /** The loop of RecoverHandler. */
    method DeleteAll(keys: seq<string>)
      modifies this
      ensures cache == ApplyAll(old(cache), DeletesOf(keys))
    {
      for i := 0 to |keys|
        invariant cache == ApplyAll(old(cache), DeletesOf(keys)[..i])
      {
        assert DeletesOf(keys)[..i + 1][..i] == DeletesOf(keys)[..i];
        cache := cache - {keys[i]};
      }
      assert DeletesOf(keys)[..|keys|] == DeletesOf(keys);
    }

    /** RecoverHandler: every listed rule goes, every other stays. */
    method Recover()
      modifies this
      ensures cache == ApplyAll(old(cache), Recovering())
      ensures forall key :: Rule(cache, key) == if key in HOOK_POINTS then None else Rule(old(cache), key)
    {
      DeleteAll(HOOK_POINTS);
      forall key ensures Rule(cache, key) == if key in HOOK_POINTS then None else Rule(old(cache), key) {
        Deleted(old(cache), HOOK_POINTS, key);
      }
    }
  }

  // ---- Injecting ----

  /** The error number returned (0: none) and the delay before it. */
  datatype Effect = Effect(errno: nat, delay: nat)

  const NOTHING := Effect(0, 0)

  /** doInjectFault for a path already joined to the mount point. `draw` is the number in 0..98 that is
      compared with the percentage, `pick` the random error number in 7..0x35. */
  function FaultFor(c: Cache, key: string, path: string, draw: nat, pick: nat): Effect {
    if key !in c then NOTHING
    else
      var m := c[key];
      if m.path != "" && !(m.path <= path) then NOTHING
      else if m.percent > 0 && draw >= m.percent then NOTHING
      else Effect(if m.errno != 0 then m.errno else if m.random then pick else 0, m.delay)
  }

  // ---- Requests that interleave ----

  /** Every request that has arrived, with the table accesses it still has to make, in order. */
  datatype Sys = Sys(cache: Cache, pending: seq<seq<Step>>)

  datatype Action = AskInject(msg: Message) | AskRecover | Tick(request: nat)

  predicate Enabled(s: Sys, a: Action) {
    a.Tick? ==> a.request < |s.pending| && s.pending[a.request] != []
  }

  function Next(s: Sys, a: Action): Sys
    requires Enabled(s, a)
  {
    match a
    case AskInject(msg) => s.(pending := s.pending + [StoresOf(msg)])
    case AskRecover => s.(pending := s.pending + [Recovering()])
    case Tick(k) => Sys(Apply(s.cache, s.pending[k][0]), s.pending[k := s.pending[k][1..]])
  }

  predicate Legal(s: Sys, acts: seq<Action>)
    decreases |acts|
  {
    acts == [] || (Enabled(s, acts[0]) && Legal(Next(s, acts[0]), acts[1..]))
  }

  function Run(s: Sys, acts: seq<Action>): Sys
    requires Legal(s, acts)
    decreases |acts|
  {
    if acts == [] then s else Run(Next(s, acts[0]), acts[1..])
  }

  /** The accesses a run makes, in the order it makes them. */
  function History(s: Sys, acts: seq<Action>): seq<Step>
    requires Legal(s, acts)
    decreases |acts|
  {
    if acts == [] then []
    else
      (if acts[0].Tick? then [s.pending[acts[0].request][0]] else [])
      + History(Next(s, acts[0]), acts[1..])
  }

  /** The last message stored for a method with no delete of it since; what there was before the first
      access to it. */
  function LastStored(was: Option<Message>, steps: seq<Step>, key: string): Option<Message> {
    if steps == [] then was
    else
      var s := steps[|steps| - 1];
      if s.key != key then LastStored(was, steps[..|steps| - 1], key)
      else if s.Store? then Some(s.msg) else None
  }

  lemma {:induction false} LastOfCons(was: Option<Message>, step: Step, rest: seq<Step>, key: string)
    ensures LastStored(was, [step] + rest, key) == LastStored(LastStored(was, [step], key), rest, key)
    decreases |rest|
  {
    if rest == [] {
      assert [step] + rest == [step];
    } else {
      var n := |rest| - 1;
      assert ([step] + rest)[..n + 1] == [step] + rest[..n];
      LastOfCons(was, step, rest[..n], key);
    }
  }

  lemma LastOfOne(c: Cache, step: Step, key: string)
    ensures Rule(Apply(c, step), key) == LastStored(Rule(c, key), [step], key)
  {
    assert [step][..0] == [];
  }

  /** For every interleaving, the rule of a method is the last one stored for it since its last delete. */
  lemma {:induction false} CacheIsHistory(s: Sys, acts: seq<Action>, key: string)
    requires Legal(s, acts)
    ensures Rule(Run(s, acts).cache, key) == LastStored(Rule(s.cache, key), History(s, acts), key)
    decreases |acts|
  {
    if acts != [] {
      var t := Next(s, acts[0]);
      CacheIsHistory(t, acts[1..], key);
      if acts[0].Tick? {
        var step := s.pending[acts[0].request][0];
        LastOfOne(s.cache, step, key);
        LastOfCons(Rule(s.cache, key), step, History(t, acts[1..]), key);
      } else {
        assert History(s, acts) == History(t, acts[1..]);
      }
    }
  }

  // ---- What a recover achieves ----

  predicate Stores(steps: seq<Step>, key: string) {
    exists i :: 0 <= i < |steps| && steps[i].Store? && steps[i].key == key
  }

  lemma StoresRest(now: seq<Step>, rest: seq<Step>, key: string)
    requires !Stores(now + rest, key)
    ensures !Stores(now, key) && !Stores(rest, key)
  {
    assert forall i :: 0 <= i < |now| ==> (now + rest)[i] == now[i];
    assert forall i :: 0 <= i < |rest| ==> (now + rest)[|now| + i] == rest[i];
  }

  /** Request k still has to delete the rule of this method, or there is none. */
  predicate Clearing(s: Sys, k: nat, key: string) {
    key in s.cache ==> k < |s.pending| && Delete(key) in s.pending[k]
  }

  lemma NextClearing(s: Sys, a: Action, k: nat, key: string)
    requires Enabled(s, a) && Clearing(s, k, key)
    requires a.Tick? ==> !Stores([s.pending[a.request][0]], key)
    ensures Clearing(Next(s, a), k, key)
  {
    if a.Tick? {
      var list := s.pending[a.request];
      assert !(list[0].Store? && list[0].key == key) by { assert [list[0]][0] == list[0]; }
      assert list == [list[0]] + list[1..];
    }
  }

  lemma {:induction false} StaysClearing(s: Sys, acts: seq<Action>, k: nat, key: string)
    requires Legal(s, acts) && Clearing(s, k, key) && !Stores(History(s, acts), key)
    ensures Clearing(Run(s, acts), k, key)
    decreases |acts|
  {
    if acts != [] {
      var t := Next(s, acts[0]);
      StoresRest(if acts[0].Tick? then [s.pending[acts[0].request][0]] else [], History(t, acts[1..]), key);
      NextClearing(s, acts[0], k, key);
      StaysClearing(t, acts[1..], k, key);
    }
  }

  predicate Done(s: Sys, k: nat) { k < |s.pending| && s.pending[k] == [] }

  lemma StartsClearing(s: Sys, key: string)
    requires key in HOOK_POINTS
    ensures Clearing(Next(s, AskRecover), |s.pending|, key)
  {
    var i :| 0 <= i < |HOOK_POINTS| && HOOK_POINTS[i] == key;
    assert Recovering()[i] == Delete(key);
  }

  /** A recover that has run to its end has cleared every listed method, whatever else was going on,
      unless some request stored a rule for the method while the recover was under way. */
  lemma RecoverClears(s: Sys, acts: seq<Action>, key: string)
    requires Legal(Next(s, AskRecover), acts) && Done(Run(Next(s, AskRecover), acts), |s.pending|)
    requires key in HOOK_POINTS && !Stores(History(Next(s, AskRecover), acts), key)
    ensures var c := Run(Next(s, AskRecover), acts).cache;
            key !in c && forall path, draw, pick :: FaultFor(c, key, path, draw, pick) == NOTHING
  {
    StartsClearing(s, key);
    StaysClearing(Next(s, AskRecover), acts, |s.pending|, key);
  }

  /** Deletes are for listed methods only. */
  ghost predicate Genuine(s: Sys) {
    forall k, i :: 0 <= k < |s.pending| && 0 <= i < |s.pending[k]| && s.pending[k][i].Delete? ==>
      s.pending[k][i].key in HOOK_POINTS
  }

  /** A rule for a method that is hooked but not listed outlives every request. */
  lemma {:induction false} UnlistedSurvives(s: Sys, acts: seq<Action>, key: string)
    requires Genuine(s) && Legal(s, acts) && key !in HOOK_POINTS && key in s.cache
    ensures key in Run(s, acts).cache
    decreases |acts|
  {
    if acts != [] {
      GenuineNext(s, acts[0]);
      UnlistedSurvives(Next(s, acts[0]), acts[1..], key);
    }
  }

  lemma GenuineNext(s: Sys, a: Action)
    requires Genuine(s) && Enabled(s, a)
    ensures Genuine(Next(s, a))
  {
    if a.AskRecover? {
      assert forall i :: 0 <= i < |HOOK_POINTS| ==> HOOK_POINTS[i] in HOOK_POINTS;
    }
  }

  /** The methods the hooks of the file system look up, in the order of the hooks. */
  const HOOKED: seq<string> := [
    "open", "read", "write", "mkdir", "rmdir", "opendir", "fsync", "flush", "release", "truncate", "getattr",
    "chown", "chmod", "utimens", "allocate", "getlk", "setlk", "setlkw", "statfs", "readlink", "symlink",
    "create", "access", "link", "mknod", "rename", "unlink", "getxattr", "listxattr", "removexattr",
    "setxattr"]

  /** PreOpen and PreChmod look up methods that no recover deletes. */
  lemma OpenAndChmodUnlisted()
    ensures "open" !in HOOK_POINTS && "chmod" !in HOOK_POINTS
  {
  }

  lemma HookedAt(i: nat)
    requires i < |HOOKED|
    ensures HOOKED[i] == "open" <==> i == 0
    ensures HOOKED[i] == "chmod" <==> i == 12
    ensures 0 < i < 12 ==> HOOKED[i] == HOOK_POINTS[i - 1]
    ensures 12 < i ==> HOOKED[i] == HOOK_POINTS[i - 2]
  {
  }

  /** Every hooked method but these two is listed, and nothing else is: a recover clears exactly those. */
  lemma ListedAreHooked(key: string)
    ensures key in HOOK_POINTS <==> key in HOOKED && key != "open" && key != "chmod"
  {
    OpenAndChmodUnlisted();
    if i :| 0 <= i < |HOOKED| && HOOKED[i] == key {
      HookedAt(i);
    }
    if j :| 0 <= j < |HOOK_POINTS| && HOOK_POINTS[j] == key {
      HookedAt(if j < 11 then j + 1 else j + 2);
      assert HOOKED[if j < 11 then j + 1 else j + 2] == key;
    }
  }

  /** After a recover that nothing overlaps, and before any further inject, a call of a listed method goes
      through unharmed for every path and every draw. One of an unlisted method is treated as before. */
  lemma RecoverHeals(c: Cache, key: string, path: string, draw: nat, pick: nat)
    ensures FaultFor(ApplyAll(c, Recovering()), key, path, draw, pick) ==
            if key in HOOK_POINTS then NOTHING else FaultFor(c, key, path, draw, pick)
  {
    Deleted(c, HOOK_POINTS, key);
  }

  /** When a rule fires, and with what: on the paths that start with its path, on every draw without a
      percentage and below the percentage otherwise; with its error number, else a random one if it asks
      for it; and with its delay, even without an error. */
  lemma FiresExactly(c: Cache, key: string, path: string, draw: nat, pick: nat)
    ensures var e := FaultFor(c, key, path, draw, pick);
            if key in c && c[key].path <= path && (c[key].percent == 0 || draw < c[key].percent) then
              && e.delay == c[key].delay
              && (c[key].errno != 0 ==> e.errno == c[key].errno)
              && (c[key].errno == 0 ==> e.errno == if c[key].random then pick else 0)
            else e.errno == 0 && e.delay == 0
  {
  }

  /** On how many of the draws below n the rule gives an error. */
  function Firing(m: Message, key: string, path: string, pick: nat, n: nat): nat {
    if n == 0 then 0
    else Firing(m, key, path, pick, n - 1) + (if FaultFor(map[key := m], key, path, n - 1, pick).errno != 0 then 1 else 0)
  }

  /** Of the 99 equally likely draws, a rule with an error and a percentage fires on that many. */
  lemma {:induction false} FiringDraws(m: Message, key: string, path: string, pick: nat, n: nat)
    requires m.path <= path && (m.errno != 0 || (m.random && pick != 0)) && m.percent > 0
    ensures Firing(m, key, path, pick, n) == if n <= m.percent then n else m.percent
    decreases n
  {
    if n > 0 {
      FiringDraws(m, key, path, pick, n - 1);
    }
  }

  /** A rule always fires on its paths exactly when its percentage is missing or at least 99: the draw is
      one of 99 numbers, so 99 and 100 percent are the same, and zero percent is not "never". */
  lemma AlwaysFires(m: Message, key: string, path: string, pick: nat)
    requires m.path <= path && 7 <= pick <= 0x35
    ensures (forall draw | 0 <= draw < 99 :: FaultFor(map[key := m], key, path, draw, pick).errno != 0) <==>
            (m.errno != 0 || m.random) && (m.percent == 0 || m.percent >= 99)
  {
    if 0 < m.percent < 99 {
      assert FaultFor(map[key := m], key, path, 98, pick).errno == 0;
    } else {
      assert FaultFor(map[key := m], key, path, 0, pick).errno == if m.errno != 0 then m.errno else if m.random then pick else 0;
    }
  }
}
