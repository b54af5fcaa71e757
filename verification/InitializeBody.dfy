/** The whole body of a rewritten `initialize`: what is injected reads back at its place, and everything
    else reads as before (src/initialize.rs). */
module InitializeBodies {
  import opened Wrappers
  import opened Jsons
  import opened Initializes

  function CapabilitiesPath(): seq<string> { ["params", "capabilities"] }

  function OptionsPath(): seq<string> { ["params", "initializationOptions"] }

  // --- Reading through two keys -------------------------------------------------------------

  lemma {:induction false} GetThrough(j: Json, a: seq<string>, b: seq<string>)
    ensures Get(j, a + b) == if Get(j, a).Some? then Get(Get(j, a).value, b) else None
  {
    if a == [] {
      assert a + b == b;
    } else if j.Object? && a[0] in j.fields {
      assert (a + b)[1..] == a[1..] + b;
      GetThrough(j.fields[a[0]], a[1..], b);
    }
  }

  lemma GetOne(j: Json, key: string)
    ensures Get(j, [key]) == if j.Object? && key in j.fields then Some(j.fields[key]) else None
  {
    assert [key][1..] == [];
  }

  lemma GetTwo(j: Json, a: string, b: string)
    ensures Get(j, [a, b]) ==
      if j.Object? && a in j.fields && j.fields[a].Object? && b in j.fields[a].fields then Some(j.fields[a].fields[b]) else None
  {
    assert [a, b][1..] == [b];
    if j.Object? && a in j.fields {
      GetOne(j.fields[a], b);
    }
  }

  lemma PutTwo(j: Json, a: string, b: string, value: Json)
    requires j.Object? && a in j.fields && j.fields[a].Object?
    ensures Put(j, [a, b], value) == Object(j.fields[a := Object(j.fields[a].fields[b := value])])
  {
    assert [a, b][1..] == [b] && [b][1..] == [];
    assert Put(j.fields[a], [b], value) == Object(j.fields[a].fields[b := value]);
  }

  /** An object put at `params.<key>` of a body whose `params` is one. */
  lemma PutBelowParams(root: Json, key: string, fields: Fields, other: seq<string>)
    requires root.Object? && "params" in root.fields && root.fields["params"].Object?
    ensures var body := Object(root.fields["params" := Object(root.fields["params"].fields[key := Object(fields)])]);
      && (Unrelated(["params", key], other) ==> Get(body, other) == Get(root, other))
      && Get(body, ["params", key]) == Some(Object(fields))
      && KeysAreKept(root, body, key)
  {
    var body := Object(root.fields["params" := Object(root.fields["params"].fields[key := Object(fields)])]);
    PutTwo(root, "params", key, Object(fields));
    if Unrelated(["params", key], other) {
      PutKeepsOthers(root, ["params", key], Object(fields), other);
    }
    GetTwo(body, "params", key);
    GetOne(body, "params");
    GetOne(root, "params");
  }

  /** Above what is put, both bodies have the same keys, but for the one put. */
  predicate KeysAreKept(root: Json, body: Json, key: string) {
    var before, now := Get(root, ["params"]), Get(body, ["params"]);
    && root.Object? && body.Object? && body.fields.Keys == root.fields.Keys
    && IsObject(before) && IsObject(now) && now.value.fields.Keys == before.value.fields.Keys + {key}
  }

  /** What a reader has of the object at `path`, which is none yet or is one. */
  lemma ReadBelow(root: Json, path: seq<string>, fields: Fields, keys: seq<string>)
    requires keys != [] && Get(root, path).GetOr(Object(map[])) == Object(fields)
    ensures Get(root, path + keys) == Get(Object(fields), keys)
  {
    GetThrough(root, path, keys);
  }

  // --- Which flags are blocked --------------------------------------------------------------

  predicate Above(q: seq<string>, p: seq<string>) { q <= p && |q| < |p| }

  /** A flag above blocks what is below, and no other flag blocks or frees anything. */
  lemma {:induction false} BlockedStep(fields: Fields, q: KeyPath, p: KeyPath)
    ensures Blocked(SetTrue(fields, q), p) <==> Blocked(fields, p) || Above(q, p)
    decreases |q|
  {
    if |q| > 1 && p[0] == q[0] && Entry(fields, q[0]).Object? {
      assert q == [q[0]] + q[1..] && p == [p[0]] + p[1..];
      if |p| > 1 {
        BlockedStep(Entry(fields, q[0]).fields, q[1..], p[1..]);
        assert Above(q, p) <==> Above(q[1..], p[1..]);
        assert q[0] !in fields ==> !Blocked(map[], p[1..]);
      }
    } else if Above(q, p) {
      assert p[0] == q[0];
    }
  }

  lemma {:induction false} BlockedAfter(fields: Fields, paths: seq<KeyPath>, p: KeyPath)
    ensures Blocked(SetAll(fields, paths), p) <==> Blocked(fields, p) || exists q | q in paths :: Above(q, p)
  {
    if paths != [] {
      var n := |paths| - 1;
      BlockedAfter(fields, paths[..n], p);
      BlockedStep(SetAll(fields, paths[..n]), paths[n], p);
      assert paths == paths[..n] + [paths[n]];
    }
  }

  /** On the whole body: a value above the leaf is there and is no object, or is itself a flag to set. */
  predicate BlockedIn(root: Json, paths: seq<KeyPath>, p: KeyPath) {
    (exists k | 0 < k < |p| :: IsOtherValue(Get(root, CapabilitiesPath() + p[..k]))) || exists q | q in paths :: Above(q, p)
  }

  predicate IsOtherValue(j: Option<Json>) { j.Some? && !j.value.Object? }

  // --- The injected capabilities ------------------------------------------------------------

  lemma CapabilitiesAreRead(root: Json, keys: seq<string>)
    ensures Capabilities(root).Some? <==>
      IsObject(Get(root, ["params"])) && !IsOtherValue(Get(root, CapabilitiesPath()))
    ensures Capabilities(root).Some? && keys != [] ==>
      Get(root, CapabilitiesPath() + keys) == Get(Object(Capabilities(root).value), keys)
  {
    GetOne(root, "params");
    GetTwo(root, "params", "capabilities");
    if Capabilities(root).Some? && keys != [] {
      ReadBelow(root, CapabilitiesPath(), Capabilities(root).value, keys);
    }
  }

  lemma BlockedIsRead(root: Json, paths: seq<KeyPath>, p: KeyPath)
    requires Capabilities(root).Some?
    ensures Blocked(SetAll(Capabilities(root).value, paths), p) <==> BlockedIn(root, paths, p)
    ensures Blocked(Capabilities(root).value, p) <==> BlockedIn(root, [], p)
  {
    var fields := Capabilities(root).value;
    BlockedAfter(fields, paths, p);
    BlockedByAParent(fields, p);
    forall k | 0 < k < |p| ensures Get(root, CapabilitiesPath() + p[..k]) == Get(Object(fields), p[..k]) {
      CapabilitiesAreRead(root, p[..k]);
    }
  }

  lemma {:induction false} TrueIsSettled(fields: Fields, path: KeyPath)
    ensures Settled(fields, path) <==> Blocked(fields, path) || Get(Object(fields), path) == Some(Bool(true))
    decreases |path|
  {
    if |path| == 1 {
      GetOne(Object(fields), path[0]);
      assert path == [path[0]];
    } else if Entry(fields, path[0]).Object? {
      TrueIsSettled(Entry(fields, path[0]).fields, path[1..]);
      if path[0] !in fields {
        assert Get(EMPTY, path[1..]).None?;
      }
    }
  }

  lemma UnchangedExactly(fields: Fields, paths: seq<KeyPath>)
    ensures SetAll(fields, paths) == fields <==> forall p | p in paths :: Settled(fields, p)
  {
    if SetAll(fields, paths) == fields {
      forall p | p in paths ensures Settled(fields, p) {
        AllAreSettled(fields, paths, p);
      }
    } else if forall p | p in paths :: Settled(fields, p) {
      SetAllAgain(fields, paths);
    }
  }

  /** There is no body exactly when `params` is no object, or `params.capabilities` is there and is none, or
      each flag reads true already or has a value above it that is no object. */
  lemma NoBodyExactly(root: Json, paths: seq<KeyPath>)
    ensures Injected(root, paths).None? <==>
      || !IsObject(Get(root, ["params"])) || IsOtherValue(Get(root, CapabilitiesPath()))
      || forall p | p in paths :: Get(root, CapabilitiesPath() + p) == Some(Bool(true)) || BlockedIn(root, [], p)
  {
    CapabilitiesAreRead(root, []);
    if Capabilities(root).Some? {
      var fields := Capabilities(root).value;
      UnchangedExactly(fields, paths);
      forall p | p in paths
        ensures Settled(fields, p) <==> Get(root, CapabilitiesPath() + p) == Some(Bool(true)) || BlockedIn(root, [], p)
      {
        TrueIsSettled(fields, p);
        BlockedIsRead(root, [], p);
        CapabilitiesAreRead(root, p);
      }
    }
  }

  /** Whatever lies neither within nor above `params.capabilities` reads as before, and above it the keys
      are as before. */
  lemma BodyIsKept(root: Json, paths: seq<KeyPath>, other: seq<string>)
    requires Injected(root, paths).Some?
    ensures var body := Injected(root, paths).value;
      && (Unrelated(CapabilitiesPath(), other) ==> Get(body, other) == Get(root, other))
      && IsObject(Get(body, CapabilitiesPath()))
      && KeysAreKept(root, body, "capabilities")
  {
    PutBelowParams(root, "capabilities", SetAll(Capabilities(root).value, paths), other);
  }

  lemma BodyReads(root: Json, paths: seq<KeyPath>, keys: seq<string>)
    requires Injected(root, paths).Some? && keys != []
    ensures Get(Injected(root, paths).value, CapabilitiesPath() + keys) ==
      Get(Object(SetAll(Capabilities(root).value, paths)), keys)
  {
    var now := SetAll(Capabilities(root).value, paths);
    PutBelowParams(root, "capabilities", now, []);
    ReadBelow(Injected(root, paths).value, CapabilitiesPath(), now, keys);
  }

  /** Each injected flag reads true in the body, unless it is blocked: by a value above it that is no
      object, or by a flag above it. A blocked one does not. */
  lemma LeafReadsTrue(root: Json, paths: seq<KeyPath>, p: KeyPath)
    requires Injected(root, paths).Some? && p in paths
    ensures Get(Injected(root, paths).value, CapabilitiesPath() + p) == Some(Bool(true)) <==> !BlockedIn(root, paths, p)
  {
    var now := SetAll(Capabilities(root).value, paths);
    BodyReads(root, paths, p);
    AllAreSettled(Capabilities(root).value, paths, p);
    TrueIsSettled(now, p);
    BlockedIsRead(root, paths, p);
    if Blocked(now, p) {
      BlockedReadsNothing(now, p);
    }
  }

  lemma {:induction false} BlockedReadsNothing(fields: Fields, p: KeyPath)
    requires Blocked(fields, p)
    ensures Get(Object(fields), p).None?
    decreases |p|
  {
    if fields[p[0]].Object? {
      BlockedReadsNothing(fields[p[0]].fields, p[1..]);
    }
  }

  /** Every other place below `params.capabilities`, neither within nor above a flag that is not blocked,
      reads as before. */
  lemma OtherLeavesAreKept(root: Json, paths: seq<KeyPath>, other: seq<string>)
    requires Injected(root, paths).Some? && other != []
    requires forall p | p in paths :: Unrelated(p, other) || BlockedIn(root, paths, p)
    ensures Get(Injected(root, paths).value, CapabilitiesPath() + other) == Get(root, CapabilitiesPath() + other)
  {
    var fields := Capabilities(root).value;
    BodyReads(root, paths, other);
    CapabilitiesAreRead(root, other);
    forall p | p in paths ensures Unrelated(p, other) || Blocked(fields, p) {
      if !Unrelated(p, other) && !BlockedIn(root, [], p) {
        var q := Topmost(root, paths, p);
        assert false;
      }
      BlockedIsRead(root, [], p);
    }
    ChangelessAreKept(fields, paths, other);
  }

  /** Of the flags above a blocked one, the topmost is not blocked, unless all of them are from the start. */
  lemma {:induction false} Topmost(root: Json, paths: seq<KeyPath>, p: KeyPath) returns (q: KeyPath)
    requires !BlockedIn(root, [], p) && BlockedIn(root, paths, p)
    ensures q in paths && Above(q, p) && !BlockedIn(root, paths, q)
    decreases |p|
  {
    var r :| r in paths && Above(r, p);
    assert !BlockedIn(root, [], r) by {
      forall k | 0 < k < |r| ensures r[..k] == p[..k] {}
    }
    q := r;
    if BlockedIn(root, paths, r) {
      q := Topmost(root, paths, r);
    }
  }

  lemma {:induction false} ChangelessAreKept(fields: Fields, paths: seq<KeyPath>, other: seq<string>)
    requires forall p | p in paths :: Unrelated(p, other) || Blocked(fields, p)
    ensures Get(Object(SetAll(fields, paths)), other) == Get(Object(fields), other)
  {
    if paths != [] {
      var n := |paths| - 1;
      ChangelessAreKept(fields, paths[..n], other);
      BlockedAfter(fields, paths[..n], paths[n]);
      assert paths[n] in paths;
      LeafIsSet(SetAll(fields, paths[..n]), paths[n]);
      if Unrelated(paths[n], other) {
        OthersAreKept(SetAll(fields, paths[..n]), paths[n], other);
      }
    }
  }

  // --- The injected options -----------------------------------------------------------------

  lemma OptionsAreRead(root: Json, keys: seq<string>)
    ensures Options(root).Some? <==> IsObject(Get(root, ["params"])) && !IsOtherValue(Get(root, OptionsPath()))
    ensures Options(root).Some? && keys != [] ==>
      Get(root, OptionsPath() + keys) == Get(Object(Options(root).value), keys)
  {
    GetOne(root, "params");
    GetTwo(root, "params", "initializationOptions");
    if Options(root).Some? && keys != [] {
      ReadBelow(root, OptionsPath(), Options(root).value, keys);
    }
  }

  /** There is no body exactly when `params` is no object, or the options are there and are none, or each flag
      reads as asked for. */
  lemma NoOptionsExactly(root: Json, flags: seq<Flag>)
    ensures InjectedOptions(root, flags).None? <==>
      || !IsObject(Get(root, ["params"])) || IsOtherValue(Get(root, OptionsPath()))
      || forall f | f in flags :: Get(root, OptionsPath() + [f.key]) == Some(Bool(f.value))
  {
    OptionsAreRead(root, []);
    if Options(root).Some? {
      Initializes.UnchangedExactly(Options(root).value, flags);
      forall f | f in flags
        ensures Has(Options(root).value, f) <==> Get(root, OptionsPath() + [f.key]) == Some(Bool(f.value))
      {
        OptionsAreRead(root, [f.key]);
        GetOne(Object(Options(root).value), f.key);
      }
    }
  }

  lemma {:induction false} LastIsSet(fields: Fields, flags: seq<Flag>, i: nat)
    requires i < |flags| && forall j | i < j < |flags| :: flags[j].key != flags[i].key
    ensures var now := SetFlags(fields, flags); flags[i].key in now && now[flags[i].key] == Bool(flags[i].value)
  {
    if i < |flags| - 1 {
      LastIsSet(fields, flags[..|flags| - 1], i);
    }
  }

  /** Whatever lies neither within nor above the options reads as before, and above them the keys are as
      before; among them, a key asked for has the last value asked for it, and all else reads as before. */
  lemma OptionsExactly(root: Json, flags: seq<Flag>, i: nat, key: string, rest: seq<string>, other: seq<string>)
    requires InjectedOptions(root, flags).Some?
    ensures var body := InjectedOptions(root, flags).value;
      && (Unrelated(OptionsPath(), other) ==> Get(body, other) == Get(root, other))
      && IsObject(Get(body, OptionsPath())) && KeysAreKept(root, body, "initializationOptions")
      && (i < |flags| && (forall j | i < j < |flags| :: flags[j].key != flags[i].key) ==>
            Get(body, OptionsPath() + [flags[i].key]) == Some(Bool(flags[i].value)))
      && ((forall f | f in flags :: f.key != key) ==>
            Get(body, OptionsPath() + ([key] + rest)) == Get(root, OptionsPath() + ([key] + rest)))
  {
    var before := Options(root).value;
    var now := SetFlags(before, flags);
    var body := InjectedOptions(root, flags).value;
    PutBelowParams(root, "initializationOptions", now, other);
    if i < |flags| && (forall j | i < j < |flags| :: flags[j].key != flags[i].key) {
      LastIsSet(before, flags, i);
      ReadBelow(body, OptionsPath(), now, [flags[i].key]);
      GetOne(Object(now), flags[i].key);
    }
    if forall f | f in flags :: f.key != key {
      FlagsAreSet(before, flags, key);
      ReadBelow(body, OptionsPath(), now, [key] + rest);
      OptionsAreRead(root, [key] + rest);
      assert ([key] + rest)[1..] == rest;
    }
  }
}
