/** The whole generated file, line by line, as generateFile and
    generateFileContent in cmd/protoc-gen-go-sql/sql.go emit it. */
module Layout {
  import opened Schema
  import opened Naming
  import opened Classify
  import opened Signatures

  const GeneratedSuffix := ".sql.pb.go"

  /** `dbPackage.Ident("DB")` as the generated file spells it. */
  const DbIdent := "db.DB"

  function GeneratedFileName(f: File): string {
    f.filenamePrefix + GeneratedSuffix
  }

  /** The output is named by the file's prefix followed by `.sql.pb.go`,
      and dropping that suffix gives the prefix back. */
  lemma GeneratedFileNameParts(f: File)
    ensures var name := GeneratedFileName(f);
      && HasSuffix(name, GeneratedSuffix)
      && TrimSuffix(name, GeneratedSuffix) == f.filenamePrefix
      && name[..|f.filenamePrefix|] == f.filenamePrefix
  {
    TrimSuffixAppended(f.filenamePrefix, GeneratedSuffix);
  }

  /** The do-not-edit comment and the package clause, each followed by a blank line. */
  function Header(goPackageName: string): seq<string> {
    ["// Code generated by protoc-gen-go-sql. DO NOT EDIT.", "", "package " + goPackageName, ""]
  }

  /** The method lines of the interface, one per message. */
  function InterfaceLines(ms: seq<Message>): (r: seq<string>)
    ensures |r| == |ms|
    ensures forall k :: 0 <= k < |ms| ==> r[k] == InterfaceSignature(ms[k])
  {
    if ms == [] then []
    else InterfaceLines(ms[..|ms| - 1]) + [InterfaceSignature(ms[|ms| - 1])]
  }

  function InterfaceOpen(typeName: string): string {
    "type " + InterfaceName(typeName) + " interface {"
  }

  /** The interface declaration with one method line per message. */
  function InterfaceBlock(typeName: string, ms: seq<Message>): seq<string> {
    [InterfaceOpen(typeName)] + InterfaceLines(ms) + ["}", ""]
  }

  /** The implementation struct holding the database handle, and its constructor. */
  function StructAndConstructor(typeName: string): seq<string> {
    var iface, impl := InterfaceName(typeName), ImplName(typeName);
    [ "type " + impl + " struct {",
      "db *" + DbIdent,
      "}",
      "func New" + iface + "(db *" + DbIdent + ") " + iface + "{",
      "return &" + impl + "{db: db}",
      "}",
      "" ]
  }

  predicate AllEmittable(ms: seq<Message>) {
    forall k :: 0 <= k < |ms| ==> Emittable(ms[k])
  }

  /** One implementation method per message, in order. */
  function ImplMethods(implName: string, ms: seq<Message>, camel: string -> string): seq<string>
    requires AllEmittable(ms)
  {
    if ms == [] then []
    else
      assert AllEmittable(ms[..|ms| - 1]) by {
        assert forall i :: 0 <= i < |ms| - 1 ==> ms[..|ms| - 1][i] == ms[i];
      }
      ImplMethods(implName, ms[..|ms| - 1], camel) + ImplMethod(implName, ms[|ms| - 1], camel)
  }

  /** Every method is nine lines long. */
  lemma {:induction false} ImplMethodsLength(implName: string, ms: seq<Message>, camel: string -> string)
    requires AllEmittable(ms)
    ensures |ImplMethods(implName, ms, camel)| == 9 * |ms|
  {
    if ms != [] {
      var init := ms[..|ms| - 1];
      assert forall i :: 0 <= i < |init| ==> init[i] == ms[i];
      ImplMethodsLength(implName, init, camel);
    }
  }

  /** The k-th nine lines are the method of the k-th message. */
  lemma {:induction false} ImplMethodsBlock(implName: string, ms: seq<Message>, camel: string -> string, k: nat)
    requires AllEmittable(ms) && k < |ms|
    ensures |ImplMethods(implName, ms, camel)| == 9 * |ms|
    ensures ImplMethods(implName, ms, camel)[9 * k..9 * k + 9] == ImplMethod(implName, ms[k], camel)
  {
    var init := ms[..|ms| - 1];
    assert forall i :: 0 <= i < |init| ==> init[i] == ms[i];
    var prefix, last := ImplMethods(implName, init, camel), ImplMethod(implName, ms[|ms| - 1], camel);
    ImplMethodsLength(implName, init, camel);
    ImplMethodLines(implName, ms[|ms| - 1], camel);
    if k < |init| {
      ImplMethodsBlock(implName, init, camel, k);
      BlockOfSnoc(prefix, last, |init|, k, ImplMethod(implName, init[k], camel));
    } else {
      BlockOfSnoc(prefix, last, |init|, k, last);
    }
  }

  /** Appending a nine-line block keeps the earlier blocks in place and puts
      the new one last. */
  lemma BlockOfSnoc<T>(prefix: seq<T>, last: seq<T>, n: nat, k: nat, block: seq<T>)
    requires |prefix| == 9 * n && |last| == 9 && k <= n
    requires k < n ==> prefix[9 * k..9 * k + 9] == block
    requires k == n ==> last == block
    ensures |prefix + last| == 9 * (n + 1)
    ensures (prefix + last)[9 * k..9 * k + 9] == block
  {
    if k < n {
      assert (prefix + last)[9 * k..9 * k + 9] == prefix[9 * k..9 * k + 9];
    } else {
      assert (prefix + last)[|prefix|..] == last;
    }
  }

  /** Emitting one more message appends its method. */
  lemma ImplMethodsSnoc(implName: string, ms: seq<Message>, m: Message, camel: string -> string)
    requires AllEmittable(ms) && Emittable(m)
    ensures AllEmittable(ms + [m])
    ensures ImplMethods(implName, ms + [m], camel) == ImplMethods(implName, ms, camel) + ImplMethod(implName, m, camel)
  {
    assert (ms + [m])[..|ms|] == ms;
  }

  lemma AnnotatedEmittable(f: File)
    requires Generatable(f)
    ensures AllEmittable(AnnotatedOf(f))
  {
    var a := AnnotatedOf(f);
    AnnotatedMembers(f.messages);
    forall k | 0 <= k < |a|
      ensures Emittable(a[k])
    {
      assert a[k] in a;
      var i :| 0 <= i < |f.messages| && f.messages[i] == a[k];
    }
  }

  /** The annotated messages of a file, in declaration order. */
  function AnnotatedOf(f: File): seq<Message> {
    Annotated(f.messages)
  }

  /** What follows the header: nothing for a file without messages,
      otherwise the interface, the struct, the constructor and the methods. */
  function FileContent(f: File, camel: string -> string): seq<string>
    requires Generatable(f)
  {
    if |f.messages| == 0 then []
    else
      var typeName := TypeName(f.path, camel);
      var annotated := AnnotatedOf(f);
      AnnotatedEmittable(f);
      InterfaceBlock(typeName, annotated) + StructAndConstructor(typeName)
        + ImplMethods(ImplName(typeName), annotated, camel)
  }

  function FileText(f: File, camel: string -> string): seq<string>
    requires Generatable(f)
  {
    Header(f.goPackageName) + FileContent(f, camel)
  }

  lemma FileContentUnfold(f: File, camel: string -> string)
    requires Generatable(f) && |f.messages| > 0
    ensures AllEmittable(AnnotatedOf(f))
    ensures FileContent(f, camel)
         == InterfaceBlock(TypeName(f.path, camel), AnnotatedOf(f)) + StructAndConstructor(TypeName(f.path, camel))
            + ImplMethods(ImplName(TypeName(f.path, camel)), AnnotatedOf(f), camel)
  {
    AnnotatedEmittable(f);
  }

  lemma NoMethods(typeName: string, camel: string -> string)
    ensures InterfaceBlock(typeName, []) == [InterfaceOpen(typeName), "}", ""]
    ensures ImplMethods(ImplName(typeName), [], camel) == []
  {
  }

  /** Output after the header is skipped exactly when the file declares no
      message at all, whether or not any message carries a template. */
  lemma ContentEmptyIffNoMessages(f: File, camel: string -> string)
    requires Generatable(f)
    ensures FileContent(f, camel) == [] <==> |f.messages| == 0
  {
    if |f.messages| > 0 {
      FileContentUnfold(f, camel);
      var typeName := TypeName(f.path, camel);
      assert InterfaceBlock(typeName, AnnotatedOf(f))[0] == InterfaceOpen(typeName);
    }
  }

  /** The header comment and the package clause come first, and nothing
      follows them exactly when the file has no messages at all. */
  lemma HeaderFirstAndEmptyFiles(f: File, camel: string -> string)
    requires Generatable(f)
    ensures var text := FileText(f, camel);
      && |text| >= 4 && text[..4] == Header(f.goPackageName)
      && text[0] == "// Code generated by protoc-gen-go-sql. DO NOT EDIT."
      && text[2] == "package " + f.goPackageName
      && (|text| == 4 <==> |f.messages| == 0)
  {
    var header, content := Header(f.goPackageName), FileContent(f, camel);
    ContentEmptyIffNoMessages(f, camel);
    assert FileText(f, camel) == header + content;
    assert (header + content)[..4] == header;
  }

  /** A file whose messages carry no template still gets an empty interface,
      the struct and the constructor, and no method. */
  lemma UnannotatedFileSkeleton(f: File, camel: string -> string)
    requires |f.messages| > 0
    requires forall i :: 0 <= i < |f.messages| ==> !IsAnnotated(f.messages[i])
    ensures Generatable(f)
    ensures var typeName := TypeName(f.path, camel);
      FileContent(f, camel) == [InterfaceOpen(typeName), "}", ""] + StructAndConstructor(typeName)
  {
    var typeName := TypeName(f.path, camel);
    AnnotatedEmpty(f.messages);
    FileContentUnfold(f, camel);
    NoMethods(typeName, camel);
  }

  lemma ImplMethodLines(implName: string, m: Message, camel: string -> string)
    requires Emittable(m)
    ensures |ImplMethod(implName, m, camel)| == 9
    ensures ImplMethod(implName, m, camel)[0] == ImplSignature(implName, m)
    ensures ImplMethod(implName, m, camel)[3] == RawLine(m.sql.value, ReqArgs(m.fields, camel))
    ensures ImplMethod(implName, m, camel)[6] == "return res, err"
  {
  }

  /** The k-th line inside the interface is the signature of the k-th
      annotated message. */
  lemma InterfaceLineAt(f: File, camel: string -> string, k: nat)
    requires Generatable(f) && |f.messages| > 0 && k < |AnnotatedOf(f)|
    ensures FileContent(f, camel)[1 + k] == InterfaceSignature(AnnotatedOf(f)[k])
  {
    var typeName, annotated := TypeName(f.path, camel), AnnotatedOf(f);
    FileContentUnfold(f, camel);
    var lines := InterfaceLines(annotated);
  }

  /** The interface block and the struct with its constructor take ten lines
      besides one per annotated message. */
  lemma HeadLength(typeName: string, annotated: seq<Message>)
    ensures |InterfaceBlock(typeName, annotated) + StructAndConstructor(typeName)| == 10 + |annotated|
  {
  }

  /** Lines 0, 3 and 6 of a nine-line block at `offset` of what follows the
      head, found at the same offset past the head. */
  lemma LinesAfterHead<T>(content: seq<T>, head: seq<T>, rest: seq<T>, start: nat, offset: nat, block: seq<T>)
    requires content == head + rest && start == |head| + offset && offset + 9 <= |rest|
    requires rest[offset..offset + 9] == block
    ensures start + 9 <= |content|
    ensures content[start] == block[0] && content[start + 3] == block[3] && content[start + 6] == block[6]
  {
    assert block[0] == rest[offset] && block[3] == rest[offset + 3] && block[6] == rest[offset + 6];
  }

  /** The k-th annotated message's lines in the content of a file with `n`
      annotated messages: its line in the interface, and the signature, the
      `Raw` call and the return of its method block. */
  predicate MessageLinesAt(content: seq<string>, typeName: string, annotated: seq<Message>, camel: string -> string, k: nat)
    requires AllEmittable(annotated) && |content| == 10 + 10 * |annotated| && k < |annotated|
  {
    var n, m := |annotated|, annotated[k];
    && content[1 + k] == InterfaceSignature(m)
    && content[10 + n + 9 * k] == ImplSignature(ImplName(typeName), m)
    && content[10 + n + 9 * k + 3] == RawLine(m.sql.value, ReqArgs(m.fields, camel))
    && content[10 + n + 9 * k + 6] == "return res, err"
  }

  /** The interface methods and the implementation methods correspond one to
      one and in declaration order: the k-th line of the interface and the
      k-th method block belong to the k-th annotated message, and every
      method block opens with its signature, calls `Raw` and ends with
      `return res, err`. */
  lemma MethodsCorrespond(f: File, camel: string -> string)
    requires Generatable(f) && |f.messages| > 0
    ensures AllEmittable(AnnotatedOf(f))
    ensures var typeName, annotated := TypeName(f.path, camel), AnnotatedOf(f);
      var content := FileContent(f, camel);
      && |content| == 10 + 10 * |annotated|
      && content[0] == InterfaceOpen(typeName)
      && forall k :: 0 <= k < |annotated| ==> MessageLinesAt(content, typeName, annotated, camel, k)
  {
    var typeName, annotated := TypeName(f.path, camel), AnnotatedOf(f);
    AnnotatedEmittable(f);
    ContentLength(f, camel);
    ContentOpensInterface(f, camel);
    forall k | 0 <= k < |annotated|
      ensures MessageLinesAt(FileContent(f, camel), typeName, annotated, camel, k)
    {
      InterfaceLineAt(f, camel, k);
      MethodLinesAt(f, camel, k);
    }
  }

  /** Lines 0, 3 and 6 of the k-th method block. */
  lemma MethodLinesAt(f: File, camel: string -> string, k: nat)
    requires Generatable(f) && |f.messages| > 0 && k < |AnnotatedOf(f)|
    ensures AllEmittable(AnnotatedOf(f))
    ensures |FileContent(f, camel)| == 10 + 10 * |AnnotatedOf(f)|
    ensures var annotated := AnnotatedOf(f);
      var m, start := annotated[k], 10 + |annotated| + 9 * k;
      && FileContent(f, camel)[start] == ImplSignature(ImplName(TypeName(f.path, camel)), m)
      && FileContent(f, camel)[start + 3] == RawLine(m.sql.value, ReqArgs(m.fields, camel))
      && FileContent(f, camel)[start + 6] == "return res, err"
  {
    var typeName, annotated := TypeName(f.path, camel), AnnotatedOf(f);
    var implName := ImplName(typeName);
    FileContentUnfold(f, camel);
    ContentLength(f, camel);
    HeadLength(typeName, annotated);
    ImplMethodsBlock(implName, annotated, camel, k);
    ImplMethodLines(implName, annotated[k], camel);
    LinesAfterHead(FileContent(f, camel), InterfaceBlock(typeName, annotated) + StructAndConstructor(typeName),
                   ImplMethods(implName, annotated, camel), 10 + |annotated| + 9 * k, 9 * k,
                   ImplMethod(implName, annotated[k], camel));
  }

  lemma ContentOpensInterface(f: File, camel: string -> string)
    requires Generatable(f) && |f.messages| > 0
    ensures |FileContent(f, camel)| > 0 && FileContent(f, camel)[0] == InterfaceOpen(TypeName(f.path, camel))
  {
    FileContentUnfold(f, camel);
  }

  lemma ContentLength(f: File, camel: string -> string)
    requires Generatable(f) && |f.messages| > 0
    ensures |FileContent(f, camel)| == 10 + 10 * |AnnotatedOf(f)|
  {
    var typeName, annotated := TypeName(f.path, camel), AnnotatedOf(f);
    FileContentUnfold(f, camel);
    ImplMethodsLength(ImplName(typeName), annotated, camel);
  }
}
