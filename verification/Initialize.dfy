/** Rewriting `initialize` and its result (src/initialize.rs): flags injected into what the client
    declares, and the relay's own declaration added to what the upstream declares. */
module Initializes {
  import opened Wrappers
  import opened Jsons

  type Fields = map<string, Json>

  /** The keys of a dot-separated path; the last one is the leaf. */
  type KeyPath = p: seq<string> | p != [] witness ["key"]

  /** What lies at the end of `keys`. */
  function Get(j: Json, keys: seq<string>): Option<Json> {
    if keys == [] then Some(j)
    else if j.Object? && keys[0] in j.fields then Get(j.fields[keys[0]], keys[1..])
    else None
  }

  const EMPTY := Object(map[])

  function Entry(fields: Fields, key: string): Json {
    if key in fields then fields[key] else EMPTY
  }

  /** The leaf set to true, through parents made where there are none; nothing if a parent is there
      and is no object. */
  function SetTrue(fields: Fields, path: KeyPath): Fields
    decreases |path|
  {
    if |path| == 1 then fields[path[0] := Bool(true)]
    else if !Entry(fields, path[0]).Object? then fields
    else fields[path[0] := Object(SetTrue(Entry(fields, path[0]).fields, path[1..]))]
  }

  function SetAll(fields: Fields, paths: seq<KeyPath>): Fields {
    if paths == [] then fields else SetTrue(SetAll(fields, paths[..|paths| - 1]), paths[|paths| - 1])
  }

  /** A value above the leaf that is no object. */
  predicate Blocked(fields: Fields, path: KeyPath)
    decreases |path|
  {
    |path| > 1 && path[0] in fields &&
    (!fields[path[0]].Object? || Blocked(fields[path[0]].fields, path[1..]))
  }

  // --- What one flag changes --------------------------------------------------------------

  /** Blocked exactly when some value strictly above the leaf is no object. */
  lemma {:induction false} BlockedByAParent(fields: Fields, path: KeyPath)
    ensures Blocked(fields, path) <==>
      exists k | 0 < k < |path| :: Get(Object(fields), path[..k]).Some? && !Get(Object(fields), path[..k]).value.Object?
    decreases |path|
  {
    var j := Object(fields);
    forall k | 0 < k < |path|
      ensures path[0] in fields ==> Get(j, path[..k]) == Get(fields[path[0]], path[1..][..k - 1])
    {
      assert path[..k][1..] == path[1..][..k - 1];
    }
    if |path| > 1 && path[0] in fields {
      if fields[path[0]].Object? {
        BlockedByAParent(fields[path[0]].fields, path[1..]);
        if Blocked(fields, path) {
          var k :| 0 < k < |path| - 1 && Get(fields[path[0]], path[1..][..k]).Some? && !Get(fields[path[0]], path[1..][..k]).value.Object?;
          assert path[1..][..k + 1 - 1] == path[1..][..k];
          assert Get(j, path[..k + 1]) == Get(fields[path[0]], path[1..][..k]);
        }
      } else {
        assert path[..1][1..] == [];
        assert Get(j, path[..1]) == Some(fields[path[0]]);
      }
    }
  }

  /** The leaf is true afterwards unless it is blocked, and then nothing changes. */
  lemma {:induction false} LeafIsSet(fields: Fields, path: KeyPath)
    ensures if Blocked(fields, path) then SetTrue(fields, path) == fields
      else Get(Object(SetTrue(fields, path)), path) == Some(Bool(true))
    decreases |path|
  {
    if |path| > 1 && Entry(fields, path[0]).Object? {
      LeafIsSet(Entry(fields, path[0]).fields, path[1..]);
    }
  }

  predicate Unrelated(p: seq<string>, q: seq<string>) { !(p <= q) && !(q <= p) }

  /** Only the leaf and what is above it are touched. */
  lemma {:induction false} OthersAreKept(fields: Fields, path: KeyPath, other: seq<string>)
    requires Unrelated(path, other)
    ensures Get(Object(SetTrue(fields, path)), other) == Get(Object(fields), other)
    decreases |path|
  {
    if |path| > 1 && other[0] == path[0] && Entry(fields, path[0]).Object? {
      assert path == [path[0]] + path[1..] && other == [path[0]] + other[1..];
      OthersAreKept(Entry(fields, path[0]).fields, path[1..], other[1..]);
      if path[0] !in fields {
        assert Get(EMPTY, other[1..]).None?;
      }
    }
  }

  /** A parent that is made holds the one key on the path; a parent that was there stays an object
      with its other keys. */
  lemma {:induction false} ParentsKeepKeys(fields: Fields, path: KeyPath, k: nat)
    requires k < |path| && !Blocked(fields, path)
    ensures var before, now := Get(Object(fields), path[..k]), Get(Object(SetTrue(fields, path)), path[..k]);
      && (before.Some? ==> before.value.Object?)
      && now.Some? && now.value.Object?
      && now.value.fields.Keys == before.GetOr(EMPTY).fields.Keys + {path[k]}
    decreases |path|
  {
    if k > 0 {
      assert path[..k][1..] == path[1..][..k - 1];
      ParentsKeepKeys(Entry(fields, path[0]).fields, path[1..], k - 1);
      if path[0] !in fields && k > 1 {
        assert Get(EMPTY, path[1..][..k - 1]).None?;
      }
    }
  }

  // --- Several flags ------------------------------------------------------------------------

  /** Setting it once more changes nothing: it is true, or blocked. */
  predicate Settled(fields: Fields, path: KeyPath) { SetTrue(fields, path) == fields }

  /** Two flags in either order give the same tree, whatever the paths. */
  lemma {:induction false} SetTrueCommutes(fields: Fields, p: KeyPath, q: KeyPath)
    ensures SetTrue(SetTrue(fields, p), q) == SetTrue(SetTrue(fields, q), p)
    decreases |p|
  {
    if p[0] == q[0] && |p| > 1 && |q| > 1 && Entry(fields, p[0]).Object? {
      SetTrueCommutes(Entry(fields, p[0]).fields, p[1..], q[1..]);
    }
  }

  lemma {:induction false} SetTrueSettles(fields: Fields, path: KeyPath)
    ensures Settled(SetTrue(fields, path), path)
    decreases |path|
  {
    if |path| > 1 && Entry(fields, path[0]).Object? {
      SetTrueSettles(Entry(fields, path[0]).fields, path[1..]);
    }
  }

  lemma {:induction false} AllAreSettled(fields: Fields, paths: seq<KeyPath>, path: KeyPath)
    requires path in paths || Settled(fields, path)
    ensures Settled(SetAll(fields, paths), path)
  {
    if paths != [] {
      var n := |paths| - 1;
      var before := SetAll(fields, paths[..n]);
      if path == paths[n] {
        SetTrueSettles(before, path);
      } else {
        AllAreSettled(fields, paths[..n], path);
        SetTrueCommutes(before, paths[n], path);
      }
    }
  }

  /** All flags twice are all flags once. */
  lemma {:induction false} SetAllAgain(fields: Fields, paths: seq<KeyPath>)
    requires forall path | path in paths :: Settled(fields, path)
    ensures SetAll(fields, paths) == fields
  {
    if paths != [] {
      SetAllAgain(fields, paths[..|paths| - 1]);
      assert Settled(fields, paths[|paths| - 1]);
    }
  }

  lemma {:induction false} SetAllAfter(fields: Fields, path: KeyPath, paths: seq<KeyPath>)
    ensures SetAll(SetTrue(fields, path), paths) == SetTrue(SetAll(fields, paths), path)
  {
    if paths != [] {
      var n := |paths| - 1;
      SetAllAfter(fields, path, paths[..n]);
      SetTrueCommutes(SetAll(fields, paths[..n]), path, paths[n]);
    }
  }

  lemma {:induction false} SetAllAppend(fields: Fields, a: seq<KeyPath>, b: seq<KeyPath>)
    ensures SetAll(fields, a + b) == SetAll(SetAll(fields, a), b)
  {
    if b == [] {
      assert a + b == a;
    } else {
      SetAllAppend(fields, a, b[..|b| - 1]);
      assert (a + b)[..|a + b| - 1] == a + b[..|b| - 1];
    }
  }

  /** The order of the flags does not matter. */
  lemma {:induction false} OrderDoesNotMatter(fields: Fields, a: seq<KeyPath>, b: seq<KeyPath>)
    requires multiset(a) == multiset(b)
    ensures SetAll(fields, a) == SetAll(fields, b)
  {
    if a == [] {
      assert |multiset(b)| == 0;
    } else {
      var n, path := |a| - 1, a[|a| - 1];
      assert a == a[..n] + [path];
      assert path in multiset(b);
      var i :| 0 <= i < |b| && b[i] == path;
      var rest := b[..i] + b[i + 1..];
      assert b == b[..i] + [path] + b[i + 1..];
      assert multiset(rest) == multiset(b) - multiset{path};
      assert multiset(a[..n]) == multiset(a) - multiset{path};
      assert multiset(rest) == multiset(a[..n]);
      OrderDoesNotMatter(fields, a[..n], rest);
      SetAllAppend(fields, b[..i], b[i + 1..]);
      SetAllAppend(fields, b[..i] + [path], b[i + 1..]);
      assert (b[..i] + [path])[..i] == b[..i];
      SetAllAfter(SetAll(fields, b[..i]), path, b[i + 1..]);
    }
  }

  // --- The request to the upstream ----------------------------------------------------------

  function ObjectAt(fields: Fields, key: string): Option<Fields> {
    if Entry(fields, key).Object? then Some(Entry(fields, key).fields) else None
  }

  /** `params.capabilities` of an `initialize`, made if it is absent. */
  function Capabilities(root: Json): Option<Fields> {
    if !root.Object? || "params" !in root.fields || !root.fields["params"].Object? then None
    else ObjectAt(root.fields["params"].fields, "capabilities")
  }

  function WithCapabilities(root: Json, capabilities: Fields): Json
    requires Capabilities(root).Some?
  {
    var params := root.fields["params"].fields["capabilities" := Object(capabilities)];
    Object(root.fields["params" := Object(params)])
  }

  function Injected(root: Json, paths: seq<KeyPath>): Option<Json> {
    var capabilities := Capabilities(root);
    if capabilities.None? || SetAll(capabilities.value, paths) == capabilities.value then None
    else Some(WithCapabilities(root, SetAll(capabilities.value, paths)))
  }

  /** The new body; none if nothing can or need be changed. */
  method InjectClientCapabilities(root: Json, paths: seq<KeyPath>) returns (body: Option<Json>)
    ensures body == Injected(root, paths)
  {
    if paths == [] || Capabilities(root).None? {
      return None;
    }
    var before := Capabilities(root).value;
    var capabilities, changed := before, false;
    for i := 0 to |paths|
      invariant capabilities == SetAll(before, paths[..i])
      invariant changed <==> capabilities != before
    {
      assert paths[..i + 1][..i] == paths[..i];
      ChangesAreKept(before, paths[..i], paths[i]);
      var next := SetTrue(capabilities, paths[i]);
      changed := changed || next != capabilities;
      capabilities := next;
    }
    assert paths[..|paths|] == paths;
    body := if changed then Some(WithCapabilities(root, capabilities)) else None;
  }

  /** No flag takes back what the flags before it changed. */
  lemma ChangesAreKept(fields: Fields, paths: seq<KeyPath>, path: KeyPath)
    ensures SetTrue(SetAll(fields, paths), path) == fields ==> SetAll(fields, paths) == fields
  {
    var all := paths + [path];
    assert all[..|paths|] == paths;
    if SetAll(fields, all) == fields {
      forall p | p in paths ensures Settled(fields, p) {
        AllAreSettled(fields, all, p);
      }
      SetAllAgain(fields, paths);
    }
  }

  /** A second injection has nothing to change. */
  lemma InjectedOnce(root: Json, paths: seq<KeyPath>)
    requires Injected(root, paths).Some?
    ensures Injected(Injected(root, paths).value, paths).None?
  {
    var now := SetAll(Capabilities(root).value, paths);
    forall path | path in paths ensures Settled(now, path) {
      AllAreSettled(Capabilities(root).value, paths, path);
    }
    SetAllAgain(now, paths);
  }

  // --- Initialization options ---------------------------------------------------------------

  datatype Flag = Flag(key: string, value: bool)

  function SetFlags(fields: Fields, flags: seq<Flag>): Fields {
    if flags == [] then fields
    else SetFlags(fields, flags[..|flags| - 1])[flags[|flags| - 1].key := Bool(flags[|flags| - 1].value)]
  }

  function Options(root: Json): Option<Fields> {
    if !root.Object? || "params" !in root.fields || !root.fields["params"].Object? then None
    else ObjectAt(root.fields["params"].fields, "initializationOptions")
  }

  function WithOptions(root: Json, options: Fields): Json
    requires Options(root).Some?
  {
    var params := root.fields["params"].fields["initializationOptions" := Object(options)];
    Object(root.fields["params" := Object(params)])
  }

  /** No key is to be set to both values. */
  predicate Consistent(flags: seq<Flag>) {
    forall f, g | f in flags && g in flags && f.key == g.key :: f == g
  }

  /** Each key has the last value given for it, and other keys are as they were. */
  lemma {:induction false} FlagsAreSet(fields: Fields, flags: seq<Flag>, key: string)
    ensures var now := SetFlags(fields, flags);
      if exists f | f in flags :: f.key == key
      then key in now && Flag(key, now[key] == Bool(true)) in flags && now[key].Bool?
      else (key in now <==> key in fields) && (key in fields ==> now[key] == fields[key])
  {
    if flags != [] {
      FlagsAreSet(fields, flags[..|flags| - 1], key);
      assert flags == flags[..|flags| - 1] + [flags[|flags| - 1]];
    }
  }

  predicate Has(fields: Fields, f: Flag) { f.key in fields && fields[f.key] == Bool(f.value) }

  /** Some flag is not as asked for when its turn comes. */
  predicate Changes(fields: Fields, flags: seq<Flag>) {
    flags != [] &&
    var n := |flags| - 1;
    Changes(fields, flags[..n]) || !Has(SetFlags(fields, flags[..n]), flags[n])
  }

  function InjectedOptions(root: Json, flags: seq<Flag>): Option<Json> {
    var options := Options(root);
    if options.None? || !Changes(options.value, flags) then None
    else Some(WithOptions(root, SetFlags(options.value, flags)))
  }

  method InjectInitializationOptions(root: Json, flags: seq<Flag>) returns (body: Option<Json>)
    ensures body == InjectedOptions(root, flags)
  {
    if flags == [] || Options(root).None? {
      return None;
    }
    var before := Options(root).value;
    var options, changed := before, false;
    for i := 0 to |flags|
      invariant options == SetFlags(before, flags[..i])
      invariant changed == Changes(before, flags[..i])
    {
      assert flags[..i + 1][..i] == flags[..i];
      if !Has(options, flags[i]) {
        changed := true;
      }
      options := options[flags[i].key := Bool(flags[i].value)];
    }
    assert flags[..|flags|] == flags;
    body := if changed then Some(WithOptions(root, options)) else None;
  }

  lemma {:induction false} UnchangedExactly(fields: Fields, flags: seq<Flag>)
    ensures !Changes(fields, flags) <==> forall f | f in flags :: Has(fields, f)
    ensures !Changes(fields, flags) ==> SetFlags(fields, flags) == fields
  {
    if flags != [] {
      var n := |flags| - 1;
      UnchangedExactly(fields, flags[..n]);
      assert (forall f | f in flags :: Has(fields, f)) <==> (forall f | f in flags[..n] :: Has(fields, f)) && Has(fields, flags[n]) by {
        assert flags == flags[..n] + [flags[n]];
      }
      if !Changes(fields, flags[..n]) && Has(fields, flags[n]) {
        assert fields[flags[n].key := Bool(flags[n].value)] == fields;
      }
    }
  }

  /** A second injection has nothing to change exactly when no key is asked for with both values. */
  lemma OptionsInjectedOnce(root: Json, flags: seq<Flag>)
    requires InjectedOptions(root, flags).Some?
    ensures InjectedOptions(InjectedOptions(root, flags).value, flags).None? <==> Consistent(flags)
  {
    var now := SetFlags(Options(root).value, flags);
    UnchangedExactly(now, flags);
    forall f | f in flags ensures Consistent(flags) ==> Has(now, f) {
      FlagsAreSet(Options(root).value, flags, f.key);
    }
  }

  // --- The result to the client -------------------------------------------------------------

  datatype Outcome =
    | UpstreamDeclares
    | Declared(body: Json)
    | Unrewritable
    | NotASuccess

  const DECLARATION := "serverStateProvider"

  function NullAsEmpty(j: Json): Json { if j.Null? then EMPTY else j }

  function Declare(root: Json, provider: Json): Outcome {
    if !root.Object? || "result" !in root.fields || !root.fields["result"].Object? then NotASuccess
    else
      var result := root.fields["result"].fields;
      if !Entry(result, "capabilities").Object? then Unrewritable
      else
        var capabilities := Entry(result, "capabilities").fields;
        var slot := NullAsEmpty(Entry(capabilities, "experimental"));
        if !slot.Object? then Unrewritable
        else if DECLARATION in slot.fields && slot.fields[DECLARATION].Object? then UpstreamDeclares
        else
          var experimental := Object(slot.fields[DECLARATION := provider]);
          var rewritten := Object(capabilities["experimental" := experimental]);
          Declared(Object(root.fields["result" := Object(result["capabilities" := rewritten])]))
  }

  function Child(j: Option<Json>, key: string): Option<Json> {
    if j.Some? && j.value.Object? && key in j.value.fields then Some(j.value.fields[key]) else None
  }

  function CapabilitiesOf(root: Json): Option<Json> { Child(Child(Some(root), "result"), "capabilities") }

  function ExperimentalOf(root: Json): Option<Json> { Child(CapabilitiesOf(root), "experimental") }

  function DeclarationOf(root: Json): Option<Json> { Child(ExperimentalOf(root), DECLARATION) }

  predicate IsObject(j: Option<Json>) { j.Some? && j.value.Object? }

  /** Each outcome, by what the upstream's answer holds; an explicit null for `experimental` is the
      same as none, one for `capabilities` is not. */
  lemma OutcomeExactly(root: Json, provider: Json)
    ensures var outcome := Declare(root, provider);
      && (outcome == NotASuccess <==> !IsObject(Child(Some(root), "result")))
      && (outcome == UpstreamDeclares <==> IsObject(DeclarationOf(root)))
      && (outcome == Unrewritable <==>
            (CapabilitiesOf(root).Some? && !IsObject(CapabilitiesOf(root)))
            || (ExperimentalOf(root).Some? && !IsObject(ExperimentalOf(root)) && ExperimentalOf(root) != Some(Null)))
  {}

  function ProviderPath(): seq<string> { ["result", "capabilities", "experimental", DECLARATION] }

  function FieldsOf(j: Json): Fields { if j.Object? then j.fields else map[] }

  /** The value put at the end of the keys, whatever is on the way made an object. */
  function Put(j: Json, keys: seq<string>, value: Json): Json
    decreases |keys|
  {
    if keys == [] then value
    else Object(FieldsOf(j)[keys[0] := Put(Entry(FieldsOf(j), keys[0]), keys[1..], value)])
  }

  lemma {:induction false} PutKeepsOthers(j: Json, keys: seq<string>, value: Json, other: seq<string>)
    requires Unrelated(keys, other)
    ensures Get(Put(j, keys, value), other) == Get(j, other)
    decreases |keys|
  {
    if keys[0] == other[0] {
      assert keys == [keys[0]] + keys[1..] && other == [other[0]] + other[1..];
      PutKeepsOthers(Entry(FieldsOf(j), keys[0]), keys[1..], value, other[1..]);
      assert Get(EMPTY, other[1..]).None?;
    }
  }

  lemma DeclaredIsPut(root: Json, provider: Json)
    requires Declare(root, provider).Declared?
    ensures Declare(root, provider).body == Put(root, ProviderPath(), provider)
  {
    var p := ProviderPath();
    assert p[1..][1..][1..][1..] == [];
    assert p[0] == "result" && p[1..][0] == "capabilities" && p[1..][1..][0] == "experimental" && p[1..][1..][1..][0] == DECLARATION;
  }

  /** The declaration is added, what is neither on its path nor within it is as it was, and the
      answer then counts as one whose upstream declares. */
  lemma DeclaredOnlyAdds(root: Json, provider: Json, other: seq<string>)
    requires provider.Object? && Declare(root, provider).Declared?
    ensures var body := Declare(root, provider).body;
      && DeclarationOf(body) == Some(provider)
      && Declare(body, provider) == UpstreamDeclares
      && (Unrelated(ProviderPath(), other) ==> Get(body, other) == Get(root, other))
  {
    DeclaredIsPut(root, provider);
    if Unrelated(ProviderPath(), other) {
      PutKeepsOthers(root, ProviderPath(), provider, other);
    }
  }
}
