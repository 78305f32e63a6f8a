# protoc-gen-go-sql, modelled in Dafny

`protoc-gen-go-sql` is a `protoc` plugin. For every schema file it writes one Go source file named `<prefix>.sql.pb.go`. The file holds:

- a do-not-edit header and the package clause;
- an interface `<Type>Sql` with one method per message that carries the `sql` option (a raw SQL template);
- a struct `<Type>_Sql` wrapping a database handle, and a constructor `New<Type>Sql`;
- one implementation method per annotated message. Each method runs the template through `Raw(...)`, scans the result into a container and returns it with the error.

This project models the text-building core of the plugin, `cmd/protoc-gen-go-sql/sql.go`. Its modules follow the program's structure:

- `Schema` (schema.dfy): the plugin's input, abstracted. A file is a path, a file-name prefix, a Go package name and its messages. A message is a Go name, an optional raw template and its fields. A field is a Go name, an optional message type (its already-qualified identifier and its own field names) and a `repeated` flag. The module also has the annotation filter both loops of `generateFileContent` apply.
- `Naming` (naming.dfy): the type names derived from the proto path (`strings.Split`, `strings.TrimSuffix`, `strcase.ToCamel`), and `getEnclosureIdent`.
- `Classify` (classify.dfy): classification of fields by exact Go name, where the last match wins. It also has the request arguments `callSqlSignature` passes to `Raw`.
- `Signatures` (signatures.dfy): the two signatures (`interfaceSignature`, the first line of `implFuncSignature`), their return lists in the fixed order, the container line, the `Raw(...)` line, and the nine lines of an implementation method.
- `Layout` (layout.dfy): the whole generated text as a function of the input file, and the properties of that text.
- `Generator` (generator.dfy): the generator as it runs. A class `GeneratedFile` holds the file name and the lines printed so far, and `P` appends one line. The imperative functions of the source are methods with their field loops. Each method is proved to leave exactly the lines the `Layout` and `Signatures` functions describe.

`strcase.ToCamel` is a parameter `camel: string -> string` throughout. `g.QualifiedGoIdent` is the identity on a message type's identifier, which the model takes as already qualified. `dbPackage.Ident("DB")` is written `db.DB`, and `contextPackage.Ident("Context")` is written `context.Context`. A call `g.P(a, b, ...)` is one line made of its parts concatenated with no separator.

## Model

| member | source | states |
|---|---|---|
| Generator.GeneratedFile.constructor | cmd/protoc-gen-go-sql/sql.go:21 | a new output file has the given name and no lines |
| Generator.GeneratedFile.P | cmd/protoc-gen-go-sql/sql.go:22 | printing appends exactly one line and keeps every earlier line |
| Generator.GenerateFile | cmd/protoc-gen-go-sql/sql.go:18-30 | the returned file is new, is named after the prefix plus `.sql.pb.go`, and holds exactly the header followed by the file's content (`FileText`) |
| Generator.GenerateFileContent | cmd/protoc-gen-go-sql/sql.go:32-80 | appends exactly `FileContent`: nothing for a file without messages, otherwise the interface, the struct with its constructor, and the methods |
| Generator.PrintInterface | cmd/protoc-gen-go-sql/sql.go:41-52 | appends the opening line, one signature per annotated message in declaration order, the closing brace and a blank line |
| Generator.PrintImplStruct | cmd/protoc-gen-go-sql/sql.go:55-64 | appends the struct `<Type>_Sql` holding `db *db.DB` and the constructor `New<Type>Sql` returning it |
| Generator.PrintImplMethods | cmd/protoc-gen-go-sql/sql.go:72-79 | appends one implementation method per annotated message, in declaration order |
| Generator.ImplFuncSignature | cmd/protoc-gen-go-sql/sql.go:82-120 | the field loop keeps the last `Req` and `Rsp` message fields and records each counter; the method appends the signature line, the six query lines, `}` and a blank line |
| Generator.CallSqlSignature | cmd/protoc-gen-go-sql/sql.go:122-150 | appends the container line, the query chain with `Raw(<quoted template><arguments>).`, `Scan(res).`, `Error` and `return res, err` |
| Generator.ScanQueryFields | cmd/protoc-gen-go-sql/sql.go:123-142 | after the field loop, the container belongs to the last `Rsp` message field, and the template is followed by the arguments of every `Req` field in field order |
| Generator.AppendReqArgs | cmd/protoc-gen-go-sql/sql.go:138-140 | the inner loop appends `, req.<Camel(name)>` once per field of the request message, in order |
| Generator.InterfaceLinesStep | cmd/protoc-gen-go-sql/sql.go:43-50 | one more message adds its interface line exactly when it is annotated |
| Generator.MethodsStep | cmd/protoc-gen-go-sql/sql.go:73-79 | one more message adds its method exactly when it is annotated |
| Generator.TemplStep | cmd/protoc-gen-go-sql/sql.go:137-141 | one more field extends the argument list only when it is named `Req` |
| Schema.Annotated | cmd/protoc-gen-go-sql/sql.go:43-46 | the filter keeps at most as many messages as it is given |
| Schema.AnnotatedMembers | cmd/protoc-gen-go-sql/sql.go:43-46 | a message is kept exactly when it is one of the file's messages and carries the `sql` option |
| Schema.AnnotatedAppend | cmd/protoc-gen-go-sql/sql.go:73-76 | filtering commutes with concatenation, so declaration order is kept |
| Schema.AnnotatedStep | cmd/protoc-gen-go-sql/sql.go:73-76 | one more message joins the kept ones exactly when it is annotated |
| Schema.AnnotatedEmpty | cmd/protoc-gen-go-sql/sql.go:43-46 | with no annotated message nothing is kept |
| Naming.LastComponentIsSuffix | cmd/protoc-gen-go-sql/sql.go:38-39 | the last path component is a `/`-free suffix of the path, either the whole path or preceded by `/` |
| Naming.LastComponentAfterSlash | cmd/protoc-gen-go-sql/sql.go:38-39 | the directory part never reaches the last component |
| Naming.LastComponentNoSlash | cmd/protoc-gen-go-sql/sql.go:38-39 | a path without `/` is its own last component |
| Naming.TrimSuffixRemoves | cmd/protoc-gen-go-sql/sql.go:39 | trimming removes `.proto` exactly when the name ends with it, and otherwise leaves the name unchanged |
| Naming.TrimSuffixAppended | cmd/protoc-gen-go-sql/sql.go:39 | trimming undoes appending the suffix |
| Naming.TypeNameOfProtoPath | cmd/protoc-gen-go-sql/sql.go:37-40 | both `dir/stem.proto` and `stem.proto` give the type name `Camel(stem)` |
| Naming.EnclosureIdentShape | cmd/protoc-gen-go-sql/sql.go:157-159 | the receiver clause is `(r *`, then the name, then `)` |
| Classify.LastPlaying | cmd/protoc-gen-go-sql/sql.go:89-100 | a selected field really plays the role: its name matches, and for `Req`/`Rsp` it holds a message |
| Classify.PlaysByName | cmd/protoc-gen-go-sql/sql.go:91-111 | the role tests are exact name comparisons; `Req` and `Rsp` additionally need a message type |
| Classify.LastPlayingStep | cmd/protoc-gen-go-sql/sql.go:89-113 | one more field overwrites the selection exactly when it plays the role |
| Classify.LastPlayingFound | cmd/protoc-gen-go-sql/sql.go:89-113 | a selected field is a field of the message and no later field plays the role |
| Classify.LastPlayingLast | cmd/protoc-gen-go-sql/sql.go:89-113 | last match wins: the field playing the role with no later match is the one selected |
| Classify.LastPlayingNone | cmd/protoc-gen-go-sql/sql.go:89-113 | nothing is selected exactly when no field plays the role |
| Classify.ShapeOfPresence | cmd/protoc-gen-go-sql/sql.go:166-183 | each entry of a message's shape is present exactly when a field of that name (holding a message, for `Req`/`Rsp`) is declared |
| Classify.CamelAll | cmd/protoc-gen-go-sql/sql.go:138-140 | one camel-cased name per input name, each at the same position |
| Classify.ReqArgsStep | cmd/protoc-gen-go-sql/sql.go:137-141 | one more field adds its request message's names exactly when it is named `Req` |
| Classify.ReqArgsAppend | cmd/protoc-gen-go-sql/sql.go:127-141 | every `Req` field contributes its arguments in field order: the arguments of a concatenation are the concatenation of the arguments |
| Classify.ReqArgsNone | cmd/protoc-gen-go-sql/sql.go:137-141 | with no field named `Req`, `Raw` gets only the template |
| Classify.ReqArgsSingle | cmd/protoc-gen-go-sql/sql.go:137-141 | with exactly one `Req` field, the arguments are its message's field names, camel-cased, in declaration order |
| Signatures.ReturnPiecesSpellReturns | cmd/protoc-gen-go-sql/sql.go:115 | the concatenated pieces `rsp`, `result`, `total`, `totalPage`, `pageTotal`, `error` spell the return list entry by entry, separated by `, ` |
| Signatures.CountersSpell | cmd/protoc-gen-go-sql/sql.go:115 | the counter pieces spell the entries after the response |
| Signatures.PagePiecesSpellTail | cmd/protoc-gen-go-sql/sql.go:115 | the page-counter pieces and `error` spell the end of the return list |
| Signatures.JoinTypesResponse | cmd/protoc-gen-go-sql/sql.go:94-100 | the response piece is `*T, ` or `*[]*T, ` for the response entry, and empty without one |
| Signatures.JoinTypesInt | cmd/protoc-gen-go-sql/sql.go:101-112 | a present counter adds `int, ` to the return list |
| Signatures.InterfaceSignatureShape | cmd/protoc-gen-go-sql/sql.go:185 | the interface line is the name, `(context.Context, <*Req>)` and the interface return list |
| Signatures.ImplSignatureShape | cmd/protoc-gen-go-sql/sql.go:115 | the implementation line is `func (r *<Impl>)<Name>(ctx context.Context, <req *Req>) (<returns with pages>) {` |
| Signatures.ParamsAgree | cmd/protoc-gen-go-sql/sql.go:115 | the implementation's parameters are the interface's, named `ctx` and `req` |
| Signatures.ReturnsInFixedOrder | cmd/protoc-gen-go-sql/sql.go:115 | return entries appear in strictly increasing rank (response, result, total count, total page, page total, error) and `error` is last |
| Signatures.CountersAscending | cmd/protoc-gen-go-sql/sql.go:115 | the entries after the response are ordered by rank and end with `error` |
| Signatures.PagesAscending | cmd/protoc-gen-go-sql/sql.go:115 | the entries after the total count are ordered by rank and end with `error` |
| Signatures.ReturnsPresence | cmd/protoc-gen-go-sql/sql.go:115 | each optional entry is present exactly when its field is declared; the page counters only in implementations |
| Signatures.CountersPresence | cmd/protoc-gen-go-sql/sql.go:101-112 | each counter entry is present exactly when its field is declared |
| Signatures.InterfaceOmitsPageCounters | cmd/protoc-gen-go-sql/sql.go:185 | the interface never returns the page counters; the implementation's list is the interface's with them inserted before `error` |
| Signatures.ContainerMatchesResponse | cmd/protoc-gen-go-sql/sql.go:128-134 | the container is the address of a value of the returned response type; without a `Rsp` field the line is empty and nothing is returned for it |
| Signatures.ReqParamStep | cmd/protoc-gen-go-sql/sql.go:91-93 | the loop's `req` update matches selecting the last `Req` message field |
| Signatures.RspPieceStep | cmd/protoc-gen-go-sql/sql.go:94-100 | the loop's `rsp` update matches selecting the last `Rsp` message field |
| Signatures.IntPieceStep | cmd/protoc-gen-go-sql/sql.go:101-112 | a counter's piece becomes `int, ` once a field of its name is seen, and is never reset |
| Signatures.ContainerStep | cmd/protoc-gen-go-sql/sql.go:128-135 | the loop's `resIdent` update matches selecting the last `Rsp` message field |
| Signatures.ArgListAppend | cmd/protoc-gen-go-sql/sql.go:137-141 | the argument text of a concatenation is the concatenation of the argument texts |
| Signatures.RawLineKeepsTemplate | cmd/protoc-gen-go-sql/sql.go:126 | the template appears verbatim between double quotes, with no escaping, right after `Raw(`, and the line ends with `).` |
| Signatures.QueryArgumentsOfSingleReq | cmd/protoc-gen-go-sql/sql.go:137-146 | with one `Req` field, `Raw` gets the quoted template and one `req.<Camel(name)>` per request field, in order |
| Layout.GeneratedFileNameParts | cmd/protoc-gen-go-sql/sql.go:20 | the output name is the prefix followed by `.sql.pb.go`, and trimming that suffix gives the prefix back |
| Layout.HeaderFirstAndEmptyFiles | cmd/protoc-gen-go-sql/sql.go:20-35 | the do-not-edit comment and the package clause are the first lines, and nothing follows the header exactly when the file has no messages |
| Layout.ContentEmptyIffNoMessages | cmd/protoc-gen-go-sql/sql.go:33-35 | content is skipped exactly when the file has no messages, whether or not any message is annotated |
| Layout.UnannotatedFileSkeleton | cmd/protoc-gen-go-sql/sql.go:42-64 | a file whose messages are all unannotated still gets an empty interface, the struct and the constructor, and no method |
| Layout.NoMethods | cmd/protoc-gen-go-sql/sql.go:42-79 | with no annotated message the interface is empty and there is no method |
| Layout.InterfaceLines | cmd/protoc-gen-go-sql/sql.go:43-50 | one interface line per message, the k-th being the k-th message's signature |
| Layout.ImplMethodsLength | cmd/protoc-gen-go-sql/sql.go:73-79 | every implementation method takes nine lines |
| Layout.ImplMethodsBlock | cmd/protoc-gen-go-sql/sql.go:73-79 | the k-th nine lines are the method of the k-th annotated message |
| Layout.ImplMethodsSnoc | cmd/protoc-gen-go-sql/sql.go:73-79 | emitting one more message appends its method after the earlier ones |
| Layout.ImplMethodLines | cmd/protoc-gen-go-sql/sql.go:115-149 | a method is nine lines: the signature first, the `Raw` line fourth, `return res, err` seventh |
| Layout.ContentOpensInterface | cmd/protoc-gen-go-sql/sql.go:42 | the content of a file with messages opens the interface `<Type>Sql` |
| Layout.ContentLength | cmd/protoc-gen-go-sql/sql.go:42-79 | ten fixed lines plus ten per annotated message: one in the interface and nine for the method |
| Layout.InterfaceLineAt | cmd/protoc-gen-go-sql/sql.go:43-50 | line 1+k of the content is the k-th annotated message's interface signature |
| Layout.MethodLinesAt | cmd/protoc-gen-go-sql/sql.go:73-79 | the k-th method block starts after the interface, struct and constructor, and opens with the k-th message's signature |
| Layout.MethodsCorrespond | cmd/protoc-gen-go-sql/sql.go:43-79 | interface methods and implementation methods correspond one to one in declaration order, each pair belonging to the same annotated message |
| Naming.LastComponent | cmd/protoc-gen-go-sql/sql.go:38 | the last element of `strings.Split(path, "/")`, the longest `/`-free suffix; described by LastComponentIsSuffix, LastComponentAfterSlash and LastComponentNoSlash |
| Naming.TrimSuffix | cmd/protoc-gen-go-sql/sql.go:39 | `strings.TrimSuffix`: drops the suffix once when present; described by TrimSuffixRemoves and TrimSuffixAppended |
| Naming.TypeName | cmd/protoc-gen-go-sql/sql.go:37-40 | camel-cased last component without `.proto`; described by TypeNameOfProtoPath |
| Naming.EnclosureIdent | cmd/protoc-gen-go-sql/sql.go:157-159 | `(r *` + name + `)`; described by EnclosureIdentShape |
| Classify.ShapeOf | cmd/protoc-gen-go-sql/sql.go:89-113 | the last `Req` and `Rsp` message fields and the presence of each counter field; described by ShapeOfPresence and the LastPlaying lemmas |
| Classify.ReqArgs | cmd/protoc-gen-go-sql/sql.go:137-141 | the camel-cased request field names of every `Req` field, in field order; described by ReqArgsAppend, ReqArgsNone and ReqArgsSingle |
| Signatures.InterfaceSignature | cmd/protoc-gen-go-sql/sql.go:161-186 | name, `(context.Context, <*Req>)` and the page-free return list; described by InterfaceSignatureShape, ReturnsInFixedOrder, ReturnsPresence and InterfaceOmitsPageCounters |
| Signatures.ImplSignature | cmd/protoc-gen-go-sql/sql.go:115 | receiver, name, `ctx context.Context`, `req *Req` and the return list with pages; described by ImplSignatureShape, ParamsAgree and ReturnsInFixedOrder |
| Signatures.Container | cmd/protoc-gen-go-sql/sql.go:128-134 | `res := &T{}` or `res := &[]*T{}` for the last `Rsp` message field, empty without one; described by ContainerMatchesResponse |
| Signatures.RawLine | cmd/protoc-gen-go-sql/sql.go:146 | `Raw(` + quoted template + arguments + `).`; described by RawLineKeepsTemplate and QueryArgumentsOfSingleReq |
| Signatures.QueryBody | cmd/protoc-gen-go-sql/sql.go:122-150 | the six lines callSqlSignature prints; proved equal to what CallSqlSignature appends |
| Signatures.ImplMethod | cmd/protoc-gen-go-sql/sql.go:115-119 | signature, query body, `}` and a blank line; described by ImplMethodLines |
| Layout.Header | cmd/protoc-gen-go-sql/sql.go:22-25 | the do-not-edit comment, a blank line, the package clause and a blank line; described by HeaderFirstAndEmptyFiles |
| Layout.InterfaceBlock | cmd/protoc-gen-go-sql/sql.go:42-52 | the opening line, one signature per annotated message, `}` and a blank line; described by InterfaceLineAt and NoMethods |
| Layout.StructAndConstructor | cmd/protoc-gen-go-sql/sql.go:55-64 | the struct `<Type>_Sql` and the constructor `New<Type>Sql`; described by UnannotatedFileSkeleton |
| Layout.ImplMethods | cmd/protoc-gen-go-sql/sql.go:72-79 | one method per annotated message, in order; described by ImplMethodsLength, ImplMethodsBlock and ImplMethodsSnoc |
| Layout.FileContent | cmd/protoc-gen-go-sql/sql.go:32-79 | nothing for a file without messages, otherwise interface, struct, constructor and methods; described by ContentEmptyIffNoMessages, ContentLength and MethodsCorrespond |
| Layout.FileText | cmd/protoc-gen-go-sql/sql.go:20-27 | the header followed by the content; described by HeaderFirstAndEmptyFiles |

## Left out

- The plugin protocol, the request/response transport and `gen.NewGeneratedFile`: the output file is a `GeneratedFile` object holding a name and lines. The Go import path it is created with is not modelled.
- `proto.HasExtension` and `proto.GetExtension` on the `sql` option (`getSqlRule`): each message carries an optional raw template instead. `getSqlRule` is reading that template.
- `g.QualifiedGoIdent` and its import bookkeeping: a message type's identifier is taken as already qualified. `strcase.ToCamel` is an uninterpreted parameter.
- Leading comments printed before each interface line (sql.go:47) are not modelled. This is text the schema author writes, not generator logic.
- The commented-out `GetRawDB` block (sql.go:66-70) is not code.
- Whether the emitted Go compiles, and what `gofmt` would do to it: lines are modelled exactly as `g.P` receives them.
- A line of the model is one `g.P` call, not one physical line: a template holding a newline escape gives a `Raw(` line that spans several physical lines, and a template holding `"` gives output that does not parse. The host's parse-and-format step, which rejects such output, is not modelled.
- A field named `Req` without a message type crashes the generator in `callSqlSignature` (sql.go:137-138). The model excludes it with the `Emittable`/`Generatable` preconditions, which only constrain annotated messages.
- Signatures.InterfaceSignature: the field loop of `interfaceSignature` is a fold (`ShapeOf`, `LastPlaying`) rather than a method with a loop, since that function only computes a value.
- The methods `PrintInterface`, `PrintImplStruct`, `PrintImplMethods` and `ScanQueryFields` are sections of `generateFileContent` and `callSqlSignature`. They are split into methods of their own so that each proof stays small, and they print the same lines in the same order.

## Behaviour worth noting

- The output file is always created, and its content is skipped only when the file declares no message at all; a file whose messages carry no template still gets the interface, the struct and the constructor.
- The interface signature leaves out `TotalPage` and `PageTotal`, while the implementation signature returns them, so the two return lists differ.
- Every field named `Req` adds its arguments to `Raw`, while the signatures use only the last `Req` field that holds a message.
- Duplicate fields are accepted silently, and the last match wins.
