/** The names the generator derives from a schema file's path
    (cmd/protoc-gen-go-sql/sql.go, generateFileContent and getEnclosureIdent). */
module Naming {

  const ProtoSuffix := ".proto"

  /** The last `/`-separated component of a path, as `strings.Split(path, "/")`
      followed by taking the last element: the longest suffix free of `/`. */
  function LastComponent(path: string): string {
    if path == [] then []
    else if path[|path| - 1] == '/' then []
    else LastComponent(path[..|path| - 1]) + [path[|path| - 1]]
  }

  /** The last component is a suffix of the path without `/`, and is either
      the whole path or preceded by a `/`. */
  lemma {:induction false} LastComponentIsSuffix(path: string)
    ensures var r := LastComponent(path);
      && '/' !in r
      && |r| <= |path| && r == path[|path| - |r|..]
      && (|r| < |path| ==> path[|path| - |r| - 1] == '/')
  {
    if path != [] && path[|path| - 1] != '/' {
      var init := path[..|path| - 1];
      LastComponentIsSuffix(init);
      var r0 := LastComponent(init);
      assert path[|path| - |r0| - 1..] == path[|init| - |r0|..|init|] + [path[|path| - 1]];
    }
  }

  predicate HasSuffix(s: string, suffix: string) {
    |suffix| <= |s| && s[|s| - |suffix|..] == suffix
  }

  /** `strings.TrimSuffix`: drops `suffix` once when `s` ends with it. */
  function TrimSuffix(s: string, suffix: string): string {
    if HasSuffix(s, suffix) then s[..|s| - |suffix|] else s
  }

  /** Trimming removes the suffix exactly when it is there. */
  lemma TrimSuffixRemoves(s: string, suffix: string)
    ensures HasSuffix(s, suffix) ==> TrimSuffix(s, suffix) + suffix == s
    ensures !HasSuffix(s, suffix) ==> TrimSuffix(s, suffix) == s
  {
    if HasSuffix(s, suffix) {
      assert s == s[..|s| - |suffix|] + s[|s| - |suffix|..];
    }
  }

  /** The Go type name the generated declarations share: the camel-cased file
      name without directory and without `.proto`.  `camel` stands for
      `strcase.ToCamel`, which is not part of this model. */
  function TypeName(path: string, camel: string -> string): string {
    camel(TrimSuffix(LastComponent(path), ProtoSuffix))
  }

  /** The generated interface: the type name followed by `Sql`. */
  function InterfaceName(typeName: string): string {
    typeName + "Sql"
  }

  /** The generated implementation struct: the type name followed by `_Sql`. */
  function ImplName(typeName: string): string {
    typeName + "_Sql"
  }

  /** `getEnclosureIdent`: the receiver clause of an implementation method. */
  function EnclosureIdent(name: string): string {
    "(r *" + name + ")"
  }

  /** The receiver clause is `(r *`, the name, then `)`. */
  lemma EnclosureIdentShape(name: string)
    ensures var r := EnclosureIdent(name);
      |r| == |name| + 5 && r[..4] == "(r *" && r[4..|r| - 1] == name && r[|r| - 1] == ')'
  {
  }

  /** The directory part of a path never reaches the last component. */
  lemma {:induction false} LastComponentAfterSlash(dir: string, base: string)
    requires '/' !in base
    ensures LastComponent(dir + "/" + base) == base
  {
    var path := dir + "/" + base;
    if base != [] {
      var init := base[..|base| - 1];
      assert path[..|path| - 1] == dir + "/" + init;
      assert path[|path| - 1] == base[|base| - 1];
      LastComponentAfterSlash(dir, init);
    }
  }

  /** A path without `/` is its own last component. */
  lemma {:induction false} LastComponentNoSlash(path: string)
    requires '/' !in path
    ensures LastComponent(path) == path
  {
    if path != [] {
      var init := path[..|path| - 1];
      assert path[|path| - 1] in path;
      assert forall c :: c in init ==> c in path;
      LastComponentNoSlash(init);
    }
  }

  /** Trimming undoes appending the suffix. */
  lemma TrimSuffixAppended(s: string, suffix: string)
    ensures TrimSuffix(s + suffix, suffix) == s
  {
    assert (s + suffix)[|s|..] == suffix;
  }

  /** `dir/stem.proto` and `stem.proto` both name their types after `stem`. */
  lemma TypeNameOfProtoPath(dir: string, stem: string, camel: string -> string)
    requires '/' !in stem
    ensures TypeName(dir + "/" + stem + ProtoSuffix, camel) == camel(stem)
    ensures TypeName(stem + ProtoSuffix, camel) == camel(stem)
  {
    var file := stem + ProtoSuffix;
    assert '/' !in file by {
      assert forall k :: 0 <= k < |file| ==> file[k] == if k < |stem| then stem[k] else ProtoSuffix[k - |stem|];
    }
    assert dir + "/" + stem + ProtoSuffix == dir + "/" + file;
    LastComponentAfterSlash(dir, file);
    LastComponentNoSlash(file);
    TrimSuffixAppended(stem, ProtoSuffix);
  }
}
