/** The generator as it runs: a buffer of lines that the functions of
    cmd/protoc-gen-go-sql/sql.go append to, field loop by field loop.  Each
    method is proved to emit exactly the lines the Layout and Signatures
    modules describe. */
module Generator {
  import opened Schema
  import opened Naming
  import opened Classify
  import opened Signatures
  import opened Layout

  /** The output file under construction: its name and the lines printed so far. */
  class GeneratedFile {
    const filename: string
    var lines: seq<string>

    constructor(filename: string)
      ensures this.filename == filename && lines == []
    {
      this.filename := filename;
      lines := [];
    }

    /** `g.P(...)`: one more line, the parts already concatenated. */
    method P(line: string)
      modifies this
      ensures lines == old(lines) + [line]
    {
      lines := lines + [line];
    }
  }

  /** generateFile: names the output after the file's prefix, prints the
      header, then the content. */
  method GenerateFile(f: File, camel: string -> string) returns (g: GeneratedFile)
    requires Generatable(f)
    ensures fresh(g)
    ensures g.filename == GeneratedFileName(f)
    ensures g.lines == FileText(f, camel)
  {
    var filename := f.filenamePrefix + ".sql.pb.go";
    g := new GeneratedFile(filename);
    g.P("// Code generated by protoc-gen-go-sql. DO NOT EDIT.");
    g.P("");
    g.P("package " + f.goPackageName);
    g.P("");
    assert g.lines == Header(f.goPackageName);
    GenerateFileContent(f, g, camel);
  }

  /** generateFileContent: for a file with messages, the interface with one
      line per annotated message, the struct and the constructor, then one
      method per annotated message. */
  method GenerateFileContent(f: File, g: GeneratedFile, camel: string -> string)
    requires Generatable(f)
    modifies g
    ensures g.lines == old(g.lines) + FileContent(f, camel)
  {
    if |f.messages| == 0 {
      return;
    }
    var trimName := TrimSuffix(LastComponent(f.path), ".proto");
    var goTypeName := camel(trimName);
    assert goTypeName == TypeName(f.path, camel);
    ghost var start := g.lines;
    PrintInterface(g, f.messages, goTypeName);
    var goStructImplName := goTypeName + "_Sql";
    PrintImplStruct(g, goTypeName);
    PrintImplMethods(g, f, goStructImplName, camel);
    FileContentUnfold(f, camel);
    var block, impl := InterfaceBlock(goTypeName, AnnotatedOf(f)), StructAndConstructor(goTypeName);
    AppendAssoc(start, block, impl);
    AppendAssoc(start, block + impl, ImplMethods(goStructImplName, AnnotatedOf(f), camel));
  }

  /** The interface block of generateFileContent: the opening line, one
      method line per annotated message in declaration order, the closing
      brace and a blank line. */
  method PrintInterface(g: GeneratedFile, messages: seq<Message>, goTypeName: string)
    modifies g
    ensures g.lines == old(g.lines) + InterfaceBlock(goTypeName, Annotated(messages))
  {
    var goStructName := goTypeName + "Sql";
    ghost var start := g.lines;
    g.P("type " + goStructName + " interface {");
    ghost var head := g.lines;
    var i := 0;
    assert messages[..0] == [];
    while i < |messages|
      invariant 0 <= i <= |messages|
      invariant g.lines == head + InterfaceLines(Annotated(messages[..i]))
    {
      var message := messages[i];
      InterfaceLinesStep(head, messages, i);
      if message.sql.Some? {
        g.P(InterfaceSignature(message));
      }
      i := i + 1;
    }
    assert messages[..i] == messages;
    ghost var lines := InterfaceLines(Annotated(messages));
    g.P("}");
    g.P("");
    AppendAssoc(head, lines, ["}", ""]);
    AppendAssoc(start, [InterfaceOpen(goTypeName)], lines + ["}", ""]);
    AppendAssoc([InterfaceOpen(goTypeName)], lines, ["}", ""]);
  }

  /** The implementation struct holding the database handle, then its
      constructor `New<Type>Sql`, which returns it as the interface. */
  method PrintImplStruct(g: GeneratedFile, goTypeName: string)
    modifies g
    ensures g.lines == old(g.lines) + StructAndConstructor(goTypeName)
  {
    var goStructName := goTypeName + "Sql";
    var goStructImplName := goTypeName + "_Sql";
    ghost var start := g.lines;
    g.P("type " + goStructImplName + " struct {");
    g.P("db *" + DbIdent);
    g.P("}");
    g.P("func New" + goStructName + "(db *" + DbIdent + ") " + goStructName + "{");
    g.P("return &" + goStructImplName + "{db: db}");
    g.P("}");
    g.P("");
  }

  /** The method loop of generateFileContent: one implementation method per
      annotated message, in declaration order. */
  method PrintImplMethods(g: GeneratedFile, f: File, goStructImplName: string, camel: string -> string)
    requires Generatable(f)
    modifies g
    ensures AllEmittable(AnnotatedOf(f))
    ensures g.lines == old(g.lines) + ImplMethods(goStructImplName, AnnotatedOf(f), camel)
  {
    ghost var start := g.lines;
    var i := 0;
    assert f.messages[..0] == [];
    while i < |f.messages|
      invariant 0 <= i <= |f.messages|
      invariant AllEmittable(Annotated(f.messages[..i]))
      invariant g.lines == start + ImplMethods(goStructImplName, Annotated(f.messages[..i]), camel)
    {
      var message := f.messages[i];
      MethodsStep(start, f, i, goStructImplName, camel);
      if message.sql.Some? {
        ImplFuncSignature(g, message, goStructImplName, camel);
      }
      i := i + 1;
    }
    assert f.messages[..i] == f.messages;
  }

  /** One more message in the interface loop adds its line when it is annotated. */
  lemma InterfaceLinesStep(head: seq<string>, ms: seq<Message>, i: nat)
    requires i < |ms|
    ensures IsAnnotated(ms[i]) ==> head + InterfaceLines(Annotated(ms[..i + 1]))
                                   == head + InterfaceLines(Annotated(ms[..i])) + [InterfaceSignature(ms[i])]
    ensures !IsAnnotated(ms[i]) ==> head + InterfaceLines(Annotated(ms[..i + 1]))
                                    == head + InterfaceLines(Annotated(ms[..i]))
  {
    AnnotatedStep(ms, i);
    var before := Annotated(ms[..i]);
    if IsAnnotated(ms[i]) {
      var after := before + [ms[i]];
      assert after[..|before|] == before;
      AppendAssoc(head, InterfaceLines(before), [InterfaceSignature(ms[i])]);
    } else {
      assert before + [] == before;
    }
  }

  /** One more message in the method loop adds its method when it is annotated. */
  lemma MethodsStep(head: seq<string>, f: File, i: nat, implName: string, camel: string -> string)
    requires Generatable(f) && i < |f.messages|
    requires AllEmittable(Annotated(f.messages[..i]))
    ensures AllEmittable(Annotated(f.messages[..i + 1]))
    ensures IsAnnotated(f.messages[i]) ==>
      && Emittable(f.messages[i])
      && head + ImplMethods(implName, Annotated(f.messages[..i + 1]), camel)
         == head + ImplMethods(implName, Annotated(f.messages[..i]), camel) + ImplMethod(implName, f.messages[i], camel)
    ensures !IsAnnotated(f.messages[i]) ==>
      head + ImplMethods(implName, Annotated(f.messages[..i + 1]), camel)
        == head + ImplMethods(implName, Annotated(f.messages[..i]), camel)
  {
    var m, before := f.messages[i], Annotated(f.messages[..i]);
    AnnotatedStep(f.messages, i);
    if IsAnnotated(m) {
      ImplMethodsSnoc(implName, before, m, camel);
      AppendAssoc(head, ImplMethods(implName, before, camel), ImplMethod(implName, m, camel));
    } else {
      assert before + [] == before;
    }
  }

  /** implFuncSignature: the field loop keeps the last `Req` and `Rsp`
      message fields and notes each counter; then the signature line, the
      query body and the closing lines. */
  method ImplFuncSignature(g: GeneratedFile, message: Message, goStructImplName: string, camel: string -> string)
    requires Emittable(message)
    modifies g
    ensures g.lines == old(g.lines) + ImplMethod(goStructImplName, message, camel)
  {
    var fields := message.fields;
    var req, rsp, result, total, totalPage, pageTotal := "", "", "", "", "", "";
    ghost var before := g.lines;
    var i := 0;
    assert fields[..0] == [];
    while i < |fields|
      invariant 0 <= i <= |fields|
      invariant g.lines == before
      invariant req == ReqParam(LastPlaying(fields[..i], ReqRole), true)
      invariant rsp == RspPiece(LastPlaying(fields[..i], RspRole))
      invariant result == IntPiece(Has(fields[..i], ResultRole))
      invariant total == IntPiece(Has(fields[..i], TotalCountRole))
      invariant totalPage == IntPiece(Has(fields[..i], TotalPageRole))
      invariant pageTotal == IntPiece(Has(fields[..i], PageTotalRole))
    {
      var field := fields[i];
      ReqParamStep(fields, i, true);
      RspPieceStep(fields, i);
      IntPieceStep(fields, i, ResultRole);
      IntPieceStep(fields, i, TotalCountRole);
      IntPieceStep(fields, i, TotalPageRole);
      IntPieceStep(fields, i, PageTotalRole);
      if field.goName == "Req" && field.message.Some? {
        req := "req *" + field.message.value.ident;
      }
      assert req == ReqParam(LastPlaying(fields[..i + 1], ReqRole), true);
      if field.goName == "Rsp" && field.message.Some? {
        if field.isList {
          rsp := "*[]*" + field.message.value.ident + ", ";
        } else {
          rsp := "*" + field.message.value.ident + ", ";
        }
      }
      assert rsp == RspPiece(LastPlaying(fields[..i + 1], RspRole));
      if field.goName == "Result" {
        result := "int, ";
      }
      assert result == IntPiece(Has(fields[..i + 1], ResultRole));
      if field.goName == "TotalCount" {
        total := "int, ";
      }
      assert total == IntPiece(Has(fields[..i + 1], TotalCountRole));
      if field.goName == "TotalPage" {
        totalPage := "int, ";
      }
      assert totalPage == IntPiece(Has(fields[..i + 1], TotalPageRole));
      if field.goName == "PageTotal" {
        pageTotal := "int, ";
      }
      assert pageTotal == IntPiece(Has(fields[..i + 1], PageTotalRole));
      i := i + 1;
    }
    assert fields[..i] == fields;
    var retList := rsp + (result + (total + ((totalPage + pageTotal) + "error")));
    assert retList == ReturnPieces(ShapeOf(fields), true);
    g.P("func " + EnclosureIdent(goStructImplName) + message.goName + "(" + ImplContextParam + ", " + req + ") ("
        + retList + ") {");
    assert g.lines == before + [ImplSignature(goStructImplName, message)];
    CallSqlSignature(g, message, camel);
    ghost var body := QueryBody(message, camel);
    g.P("}");
    g.P("");
    AppendAssoc(before + [ImplSignature(goStructImplName, message)], body, ["}", ""]);
    AppendAssoc(before, [ImplSignature(goStructImplName, message)], body + ["}", ""]);
    AppendAssoc([ImplSignature(goStructImplName, message)], body, ["}", ""]);
  }

  /** callSqlSignature: the field loop keeps the container of the last `Rsp`
      message field and appends the arguments of every `Req` field; then the
      six lines of the query. */
  method CallSqlSignature(g: GeneratedFile, message: Message, camel: string -> string)
    requires Emittable(message)
    modifies g
    ensures g.lines == old(g.lines) + QueryBody(message, camel)
  {
    var resIdent, ivTempl := ScanQueryFields(message, camel);
    ghost var before := g.lines;
    AppendAssoc("Raw(", Quote(message.sql.value), ArgList(ReqArgs(message.fields, camel)));
    g.P(resIdent);
    g.P("err := r.db.WithContext(ctx).");
    g.P("Raw(" + ivTempl + ").");
    g.P("Scan(res).");
    g.P("Error");
    g.P("return res, err");
  }

  /** The field loop of callSqlSignature: the container line of the last
      `Rsp` message field, and the quoted template followed by the
      arguments of every `Req` field. */
  method ScanQueryFields(message: Message, camel: string -> string) returns (resIdent: string, ivTempl: string)
    requires Emittable(message)
    ensures resIdent == Container(LastPlaying(message.fields, RspRole))
    ensures ivTempl == Quote(message.sql.value) + ArgList(ReqArgs(message.fields, camel))
  {
    var fields := message.fields;
    resIdent := "";
    var raw := message.sql.value;
    ivTempl := Quote(raw);
    var i := 0;
    assert fields[..0] == [];
    while i < |fields|
      invariant 0 <= i <= |fields|
      invariant ReqFieldsTyped(fields[..i])
      invariant resIdent == Container(LastPlaying(fields[..i], RspRole))
      invariant ivTempl == Quote(raw) + ArgList(ReqArgs(fields[..i], camel))
    {
      var field := fields[i];
      ContainerStep(fields, i);
      TemplStep(Quote(raw), fields, i, camel);
      if field.goName == "Rsp" && field.message.Some? {
        if field.isList {
          resIdent := "res := &[]*" + field.message.value.ident + "{}";
        } else {
          resIdent := "res := &" + field.message.value.ident + "{}";
        }
      }
      if field.goName == "Req" {
        ivTempl := AppendReqArgs(ivTempl, field.message.value.fieldGoNames, camel);
      }
      i := i + 1;
    }
    assert fields[..i] == fields;
  }

  /** The inner loop of callSqlSignature: one `, req.<Name>` per field of
      the request message, camel-cased, in declaration order. */
  method AppendReqArgs(templ: string, names: seq<string>, camel: string -> string) returns (r: string)
    ensures r == templ + ArgList(CamelAll(names, camel))
  {
    r := templ;
    var j := 0;
    assert names[..0] == [];
    while j < |names|
      invariant 0 <= j <= |names|
      invariant r == templ + ArgList(CamelAll(names[..j], camel))
    {
      ArgsStep(templ, names, j, camel);
      r := r + ", req." + camel(names[j]);
      j := j + 1;
    }
    assert names[..j] == names;
  }

  /** One more request argument. */
  lemma ArgsStep(prefix: string, names: seq<string>, j: nat, camel: string -> string)
    requires j < |names|
    ensures prefix + ArgList(CamelAll(names[..j + 1], camel))
         == prefix + ArgList(CamelAll(names[..j], camel)) + ", req." + camel(names[j])
  {
    assert names[..j + 1][..j] == names[..j];
    var before := CamelAll(names[..j], camel);
    var after := CamelAll(names[..j + 1], camel);
    assert after[..|after| - 1] == before;
    assert ArgList(after) == ArgList(before) + ", req." + camel(names[j]);
    AppendAssoc(prefix, ArgList(before) + ", req.", camel(names[j]));
    AppendAssoc(prefix, ArgList(before), ", req.");
  }

  /** One more field of the outer loop: a `Req` field appends its
      arguments to the template, any other field leaves it alone. */
  lemma TemplStep(prefix: string, fields: seq<Field>, i: nat, camel: string -> string)
    requires ReqFieldsTyped(fields) && i < |fields|
    ensures ReqFieldsTyped(fields[..i]) && ReqFieldsTyped(fields[..i + 1])
    ensures prefix + ArgList(ReqArgs(fields[..i + 1], camel))
         == if fields[i].goName == "Req"
            then prefix + ArgList(ReqArgs(fields[..i], camel)) + ArgList(CamelAll(fields[i].message.value.fieldGoNames, camel))
            else prefix + ArgList(ReqArgs(fields[..i], camel))
  {
    ReqArgsStep(fields, i, camel);
    var args := ReqArgs(fields[..i], camel);
    if fields[i].goName == "Req" {
      var more := CamelAll(fields[i].message.value.fieldGoNames, camel);
      ArgListAppend(args, more);
      AppendAssoc(prefix, ArgList(args), ArgList(more));
    } else {
      assert args + [] == args;
    }
  }
}
