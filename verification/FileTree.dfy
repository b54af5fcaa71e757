/** Directory trees as a walk meets them, and paths as text and as components. */
module FileTrees {
  import opened Wrappers

  /** What an entry of a directory is. */
  datatype Node =
    /** A regular file, with its text if it can be read as text. */
    | File(text: Option<string>)
    /** A symbolic link, a socket and the like. */
    | Special
    | Dir(entries: seq<Entry>)
    /** A directory that cannot be listed. */
    | Locked
    /** An entry whose kind cannot be read. */
    | Unseen

  datatype Entry = Entry(name: string, node: Node)

  /** The names on the way from a directory to an entry below it. */
  type Route = seq<string>

  /** `route` leads from `node` to `leaf`. */
  predicate Leads(node: Node, route: Route, leaf: Node)
    decreases |route|
  {
    if route == [] then node == leaf
    else node.Dir? && exists e | e in node.entries :: e.name == route[0] && Leads(e.node, route[1..], leaf)
  }

  /** A name below a directory: no second slash after one that ends with a slash. */
  function Join(dir: string, name: string): string {
    if dir != [] && dir[|dir| - 1] != '/' then dir + "/" + name else dir + name
  }

  function Follow(dir: string, route: Route): string
    decreases |route|
  {
    if route == [] then dir else Follow(Join(dir, route[0]), route[1..])
  }

  /** A path compares by its components: whether it is absolute, and the names in it. */
  type Path = seq<string>

  const ROOT := "/"

  function PathOf(text: string): Path {
    (if text != [] && text[0] == '/' then [ROOT] else []) + Components(text)
  }

  /** The names between slashes; an empty one and "." are none. */
  function Components(text: string): seq<string> {
    Named(Split(text))
  }

  function Named(names: seq<string>): seq<string> {
    if names == [] then [] else (if names[0] == "" || names[0] == "." then [] else [names[0]]) + Named(names[1..])
  }

  /** The pieces between slashes: one more than there are slashes. */
  function Split(text: string): (pieces: seq<string>)
    ensures pieces != []
  {
    if text == "" then [""]
    else if text[0] == '/' then [""] + Split(text[1..])
    else
      var rest := Split(text[1..]);
      [[text[0]] + rest[0]] + rest[1..]
  }

  /** The pieces with a slash between them. */
  function Slashed(pieces: seq<string>): string
    requires pieces != []
  {
    if |pieces| == 1 then pieces[0] else pieces[0] + "/" + Slashed(pieces[1..])
  }

  predicate Name(name: string) { '/' !in name }

  predicate Names(pieces: seq<string>) { forall name | name in pieces :: Name(name) }

  lemma {:induction false} SplitOne(name: string)
    requires Name(name)
    ensures Split(name) == [name]
  {
    if name != "" {
      SplitOne(name[1..]);
      assert [name[0]] + name[1..] == name;
    }
  }

  lemma {:induction false} SplitFirst(name: string, rest: string)
    requires Name(name)
    ensures Split(name + "/" + rest) == [name] + Split(rest)
  {
    var text := name + "/" + rest;
    if name == "" {
      assert text[1..] == rest;
    } else {
      SplitFirst(name[1..], rest);
      assert text[1..] == name[1..] + "/" + rest;
      assert [name[0]] + name[1..] == name;
    }
  }

  /** Splitting undoes joining with slashes, for names without a slash. */
  lemma {:induction false} SplitSlashed(pieces: seq<string>)
    requires pieces != [] && Names(pieces)
    ensures Split(Slashed(pieces)) == pieces
  {
    if |pieces| == 1 {
      SplitOne(pieces[0]);
    } else {
      SplitSlashed(pieces[1..]);
      SplitFirst(pieces[0], Slashed(pieces[1..]));
    }
  }

  /** Joining with slashes undoes splitting. */
  lemma {:induction false} SlashedSplit(text: string)
    ensures Slashed(Split(text)) == text && Names(Split(text))
  {
    if text != "" {
      SlashedSplit(text[1..]);
      var rest := Split(text[1..]);
      if text[0] == '/' {
        assert ([""] + rest)[1..] == rest;
      } else {
        assert ([[text[0]] + rest[0]] + rest[1..])[1..] == rest[1..];
        assert Name(rest[0]);
      }
    }
  }

  lemma {:induction false} SlashedConcat(a: seq<string>, b: seq<string>)
    requires a != [] && b != []
    ensures Slashed(a + b) == Slashed(a) + "/" + Slashed(b)
  {
    if |a| == 1 {
      assert (a + b)[1..] == b;
    } else {
      assert (a + b)[1..] == a[1..] + b;
      SlashedConcat(a[1..], b);
    }
  }

  /** The pieces around a slash. */
  lemma SplitAround(before: string, after: string)
    ensures Split(before + "/" + after) == Split(before) + Split(after)
  {
    SlashedSplit(before);
    SlashedSplit(after);
    SlashedConcat(Split(before), Split(after));
    SplitSlashed(Split(before) + Split(after));
  }

  // --- Paths as components ------------------------------------------------------------------

  lemma {:induction false} NamedConcat(a: seq<string>, b: seq<string>)
    ensures Named(a + b) == Named(a) + Named(b)
  {
    if a == [] {
      assert a + b == b;
    } else {
      assert (a + b)[1..] == a[1..] + b && (a + b)[0] == a[0];
      NamedConcat(a[1..], b);
    }
  }

  lemma NamedOne(name: string)
    ensures Named([name]) == if name == "" || name == "." then [] else [name]
  {
    assert [name][1..] == [];
  }

  /** A name after a slash is one more component, and an empty one or "." is none. */
  lemma OneMoreComponent(dir: string, name: string)
    requires Name(name)
    ensures Components(dir + "/" + name) == Components(dir) + if name == "" || name == "." then [] else [name]
  {
    SplitAround(dir, name);
    SplitOne(name);
    NamedConcat(Split(dir), [name]);
    NamedOne(name);
  }

  /** The path of an entry is that of its directory and the name, however the directory is written. */
  lemma JoinIsOneMore(dir: string, name: string)
    requires Name(name) && name != "" && name != "."
    ensures PathOf(Join(dir, name)) == PathOf(dir) + [name]
  {
    if dir == "" {
      SplitOne(name);
      NamedOne(name);
      assert PathOf("") == [] && Join(dir, name) == name;
    } else if dir[|dir| - 1] != '/' {
      OneMoreComponent(dir, name);
    } else {
      var before := dir[..|dir| - 1];
      assert dir == before + "/" + "" && dir + name == before + "/" + name;
      OneMoreComponent(before, "");
      OneMoreComponent(before, name);
    }
  }

  /** A slash, or a slash and a dot, after a path changes nothing. */
  lemma SameDirectory(dir: string)
    requires dir != ""
    ensures PathOf(dir + "/") == PathOf(dir) == PathOf(dir + "/.")
  {
    assert dir + "/" == dir + "/" + "" && dir + "/." == dir + "/" + ".";
    OneMoreComponent(dir, "");
    OneMoreComponent(dir, ".");
  }

  /** An absolute path differs from every relative one, and "/" has no names. */
  lemma AbsoluteIsKept(text: string)
    ensures PathOf("/" + text) == ["/"] + PathOf(text)[if "/" <= text then 1 else 0..]
  {
    assert ("/" + text)[1..] == text;
    assert Split("/" + text) == [""] + Split(text);
    NamedConcat([""], Split(text));
    NamedOne("");
  }
}
