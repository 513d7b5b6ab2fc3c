/** The handler tables of src/zend_hook_redis.cc: two classes share one hook, and the handlers they had before
    are kept in two maps. */
module RedisHooks {
  import opened Prelude

  /** An entry of a function table: a handler of the redis extension, the shared hook, or a null pointer. */
  datatype Handler = Native(id: int) | Hook | Null

  type Table = map<string, Handler>

  const REDIS: string := "Redis"
  const REDIS_CLUSTER: string := "RedisCluster"

  function Lower(s: string): string {
    seq(|s|, i requires 0 <= i < |s| => if 'A' <= s[i] <= 'Z' then (s[i] as int + 32) as char else s[i])
  }

  /** Lower-casing changes exactly the 26 letters, each to its small one: it is idempotent, and keeps a name that has
      no capital letter, and no other. */
  lemma LowerMeaning(s: string)
    ensures |Lower(s)| == |s| && Lower(Lower(s)) == Lower(s)
    ensures Lower(s) == s <==> forall i :: 0 <= i < |s| ==> !('A' <= s[i] <= 'Z')
    ensures Lower("ABCDEFGHIJKLMNOPQRSTUVWXYZ") == "abcdefghijklmnopqrstuvwxyz"
  {
    if Lower(s) == s {
      forall i | 0 <= i < |s| ensures !('A' <= s[i] <= 'Z') {
        assert Lower(s)[i] == s[i];
      }
    }
  }

  function Listed(keys: seq<string>): set<string> {
    set k | k in keys
  }

  /** The keys that the list holds more than once. */
  function Repeats(keys: seq<string>): set<string> {
    if keys == [] then {}
    else
      var front, last := keys[..|keys| - 1], keys[|keys| - 1];
      Repeats(front) + if last in front then {last} else {}
  }

  /** Exactly the listed functions of the table are hooked. */
  function Hooked(table: Table, listed: set<string>): Table {
    map k | k in table :: if k in listed then Hook else table[k]
  }

  /** Their old handlers are kept. The second time round, a repeated key finds the hook already in place. */
  function Kept(table: Table, kept: Table, listed: set<string>, repeats: set<string>): Table {
    kept + map k | k in table && k in listed :: if k in repeats then Hook else table[k]
  }

  /** Looking up a handler that was never kept creates a null one. */
  function Defaulted(table: Table, kept: Table, listed: set<string>): Table {
    kept + map k | k in table && k in listed && k !in kept :: Null
  }

  function Unhooked(table: Table, kept: Table, listed: set<string>): Table {
    map k | k in table :: if k !in listed then table[k] else if k in kept then kept[k] else Null
  }

  /** What the hook calls when it runs for a function of a class. */
  function Target(redisKept: Table, clusterKept: Table, className: string, functionName: string): Option<Handler> {
    var cmd := Lower(functionName);
    if className == REDIS && cmd in redisKept then Some(redisKept[cmd])
    else if className == REDIS_CLUSTER && cmd in clusterKept then Some(clusterKept[cmd])
    else None
  }

  /** The effect of a PHP call, as far as the original handlers go. A hook that was kept as its own original
      calls itself for ever. */
  datatype Effect = Once(handler: Handler) | Nothing | Endless

  function Call(entry: Handler, target: Option<Handler>): Effect {
    if entry != Hook then Once(entry)
    else if target == None then Nothing
    else if target == Some(Hook) then Endless
    else Once(target.value)
  }

  class RedisHook {
    var commands: seq<string>
    var redis: Option<Table>
    var redisCluster: Option<Table>
    var redisKept: Table
    var clusterKept: Table

    /** The loop over one class. */
    static method HookClass(table: Table, kept: Table, keys: seq<string>) returns (table': Table, kept': Table)
      ensures table' == Hooked(table, Listed(keys)) && kept' == Kept(table, kept, Listed(keys), Repeats(keys))
    {
      NothingDone(table, kept);
      hide Hooked, Kept;
      table', kept' := table, kept;
      var i := 0;
      assert Listed(keys[..0]) == {};
      while i < |keys|
        invariant 0 <= i <= |keys|
        invariant table' == Hooked(table, Listed(keys[..i]))
        invariant kept' == Kept(table, kept, Listed(keys[..i]), Repeats(keys[..i]))
      {
        var item := keys[i];
        RepeatsListed(keys[..i]);
        KeysStep(keys, i);
        HookStep(table, Listed(keys[..i]), item);
        KeptStep(table, kept, Listed(keys[..i]), Repeats(keys[..i]), item);
        if item in table' {
          kept' := kept'[item := table'[item]];
          table' := table'[item := Hook];
        }
        i := i + 1;
      }
      assert keys[..i] == keys;
    }

    static method UnhookClass(table: Table, kept: Table, keys: seq<string>) returns (table': Table, kept': Table)
      ensures table' == Unhooked(table, kept, Listed(keys)) && kept' == Defaulted(table, kept, Listed(keys))
    {
      NothingDone(table, kept);
      hide Unhooked, Defaulted;
      table', kept' := table, kept;
      var i := 0;
      assert Listed(keys[..0]) == {};
      while i < |keys|
        invariant 0 <= i <= |keys|
        invariant table' == Unhooked(table, kept, Listed(keys[..i]))
        invariant kept' == Defaulted(table, kept, Listed(keys[..i]))
      {
        var item := keys[i];
        KeysStep(keys, i);
        UnhookStep(table, kept, Listed(keys[..i]), item);
        DefaultStep(table, kept, Listed(keys[..i]), item);
        if item in table' {
          if item !in kept' {
            kept' := kept'[item := Null];
          }
          table' := table'[item := kept'[item]];
        }
        i := i + 1;
      }
      assert keys[..i] == keys;
    }

    method Register(keys: seq<string>)
      modifies this
      ensures commands == keys
      ensures old(redis).None? ==> redis.None? && redisKept == old(redisKept)
      ensures old(redis).Some? ==> redis == Some(Hooked(old(redis).value, Listed(keys))) &&
                                   redisKept == Kept(old(redis).value, old(redisKept), Listed(keys), Repeats(keys))
      ensures old(redisCluster).None? ==> redisCluster.None? && clusterKept == old(clusterKept)
      ensures old(redisCluster).Some? ==> redisCluster == Some(Hooked(old(redisCluster).value, Listed(keys))) &&
                                          clusterKept == Kept(old(redisCluster).value, old(clusterKept),
                                                              Listed(keys), Repeats(keys))
    {
      commands := keys;
      if redis.Some? {
        var table, kept := HookClass(redis.value, redisKept, commands);
        redis, redisKept := Some(table), kept;
      }
      if redisCluster.Some? {
        var table, kept := HookClass(redisCluster.value, clusterKept, commands);
        redisCluster, clusterKept := Some(table), kept;
      }
    }

    method Unregister()
      modifies this
      ensures commands == []
      ensures old(redis).None? ==> redis.None? && redisKept == old(redisKept)
      ensures old(redis).Some? ==>
                redis == Some(Unhooked(old(redis).value, old(redisKept), Listed(old(commands)))) &&
                redisKept == Defaulted(old(redis).value, old(redisKept), Listed(old(commands)))
      ensures old(redisCluster).None? ==> redisCluster.None? && clusterKept == old(clusterKept)
      ensures old(redisCluster).Some? ==>
                redisCluster == Some(Unhooked(old(redisCluster).value, old(clusterKept), Listed(old(commands)))) &&
                clusterKept == Defaulted(old(redisCluster).value, old(clusterKept), Listed(old(commands)))
    {
      if redis.Some? {
        var table, kept := UnhookClass(redis.value, redisKept, commands);
        redis, redisKept := Some(table), kept;
      }
      if redisCluster.Some? {
        var table, kept := UnhookClass(redisCluster.value, clusterKept, commands);
        redisCluster, clusterKept := Some(table), kept;
      }
      commands := [];
    }

    /** The dispatch at the end of the hook: the handler it calls, if any. */
    method Dispatch(className: string, functionName: string) returns (called: Option<Handler>)
      ensures called == Target(redisKept, clusterKept, className, functionName)
    {
      var cmd := Lower(functionName);
      if className == REDIS && redisKept != map[] && cmd in redisKept {
        called := Some(redisKept[cmd]);
      } else if className == REDIS_CLUSTER && clusterKept != map[] && cmd in clusterKept {
        called := Some(clusterKept[cmd]);
      } else {
        called := None;
      }
    }
  }

  lemma KeysStep(keys: seq<string>, i: nat)
    requires i < |keys|
    ensures Listed(keys[..i + 1]) == Listed(keys[..i]) + {keys[i]}
    ensures Repeats(keys[..i + 1]) == Repeats(keys[..i]) + if keys[i] in Listed(keys[..i]) then {keys[i]} else {}
  {
    assert keys[..i + 1] == keys[..i] + [keys[i]];
    assert keys[..i + 1][..i] == keys[..i];
  }

  lemma {:induction false} RepeatsMeaning(keys: seq<string>, k: string)
    ensures k in Repeats(keys) <==> exists i, j :: 0 <= i < j < |keys| && keys[i] == k && keys[j] == k
  {
    if keys != [] {
      var n := |keys| - 1;
      RepeatsMeaning(keys[..n], k);
      if i, j :| 0 <= i < j < |keys| && keys[i] == k && keys[j] == k {
        assert keys[..n][i] == k;
        assert j < n ==> keys[..n][j] == k;
      }
      if k in Repeats(keys[..n]) {
        var i, j :| 0 <= i < j < n && keys[..n][i] == k && keys[..n][j] == k;
        assert keys[i] == k && keys[j] == k;
      }
      if k == keys[n] && k in keys[..n] {
        var i :| 0 <= i < n && keys[..n][i] == k;
        assert keys[i] == k && keys[n] == k;
      }
    }
  }

  lemma NothingDone(table: Table, kept: Table)
    ensures Hooked(table, {}) == table && Kept(table, kept, {}, {}) == kept
    ensures Unhooked(table, kept, {}) == table && Defaulted(table, kept, {}) == kept
  {
  }

  lemma HookStep(table: Table, listed: set<string>, item: string)
    ensures item in Hooked(table, listed) <==> item in table
    ensures item in table ==> Hooked(table, listed)[item] == if item in listed then Hook else table[item]
    ensures Hooked(table, listed + {item}) ==
            if item in table then Hooked(table, listed)[item := Hook] else Hooked(table, listed)
  {
  }

  lemma KeptStep(table: Table, kept: Table, listed: set<string>, repeats: set<string>, item: string)
    requires repeats <= listed
    ensures Kept(table, kept, listed + {item}, repeats + if item in listed then {item} else {}) ==
            if item !in table then Kept(table, kept, listed, repeats)
            else Kept(table, kept, listed, repeats)[item := if item in listed then Hook else table[item]]
  {
  }

  lemma UnhookStep(table: Table, kept: Table, listed: set<string>, item: string)
    ensures item in Unhooked(table, kept, listed) <==> item in table
    ensures Unhooked(table, kept, listed + {item}) ==
            if item !in table then Unhooked(table, kept, listed)
            else Unhooked(table, kept, listed)[item := if item in kept then kept[item] else Null]
  {
  }

  lemma DefaultStep(table: Table, kept: Table, listed: set<string>, item: string)
    ensures item in kept ==>
              item in Defaulted(table, kept, listed) && Defaulted(table, kept, listed)[item] == kept[item]
    ensures item !in kept && item in Defaulted(table, kept, listed) ==> Defaulted(table, kept, listed)[item] == Null
    ensures Defaulted(table, kept, listed + {item}) ==
            if item in table && item !in Defaulted(table, kept, listed)
            then Defaulted(table, kept, listed)[item := Null] else Defaulted(table, kept, listed)
  {
  }

  lemma {:induction false} RepeatsListed(keys: seq<string>)
    ensures Repeats(keys) <= Listed(keys)
  {
    if keys != [] {
      RepeatsListed(keys[..|keys| - 1]);
    }
  }

  /** Register then unregister gives back every handler of a class table exactly when no function of the table
      is listed twice, except where the hook was there from the start. */
  lemma Restored(table: Table, kept: Table, keys: seq<string>)
    ensures Unhooked(Hooked(table, Listed(keys)), Kept(table, kept, Listed(keys), Repeats(keys)), Listed(keys)) ==
            table <==>
            forall k :: k in table && k in Repeats(keys) ==> table[k] == Hook
  {
    var back := Unhooked(Hooked(table, Listed(keys)), Kept(table, kept, Listed(keys), Repeats(keys)), Listed(keys));
    RepeatsListed(keys);
    forall k | k in table ensures back[k] == if k in Repeats(keys) then Hook else table[k] {
    }
    if back == table {
      forall k | k in table && k in Repeats(keys) ensures table[k] == Hook {
        assert back[k] == Hook;
      }
    }
  }

  ghost predicate AllNative(table: Table) {
    forall k :: k in table ==> table[k].Native?
  }

  /** While hooked, a call of any function of either class runs the handler that this class had for it, once,
      exactly when the function is not listed twice; whether the function is hooked or not, and whatever the
      other class has under the same name. */
  lemma Transparent(redis: Table, cluster: Table, redisKept: Table, clusterKept: Table, keys: seq<string>,
                    functionName: string)
    requires AllNative(redis) && AllNative(cluster)
    ensures var cmd := Lower(functionName);
      var r := Kept(redis, redisKept, Listed(keys), Repeats(keys));
      var c := Kept(cluster, clusterKept, Listed(keys), Repeats(keys));
      && (cmd in redis ==> (Hooked(redis, Listed(keys))[cmd] == Hook <==> cmd in keys))
      && (cmd in cluster ==> (Hooked(cluster, Listed(keys))[cmd] == Hook <==> cmd in keys))
      && (cmd in redis ==>
            (Call(Hooked(redis, Listed(keys))[cmd], Target(r, c, "Redis", functionName)) == Once(redis[cmd]) <==>
             cmd !in Repeats(keys)))
      && (cmd in cluster ==>
            (Call(Hooked(cluster, Listed(keys))[cmd], Target(r, c, "RedisCluster", functionName)) ==
             Once(cluster[cmd]) <==>
             cmd !in Repeats(keys)))
  {
    var cmd := Lower(functionName);
    RepeatsListed(keys);
    assert |REDIS| != |REDIS_CLUSTER|;
  }
}
