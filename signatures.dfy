/** The text of one generated method: the interface signature
    (interfaceSignature), the implementation signature (implFuncSignature)
    and the query body (callSqlSignature), all in
    cmd/protoc-gen-go-sql/sql.go. */
module Signatures {
  import opened Schema
  import opened Classify
  import opened Naming

  /** `contextPackage.Ident("Context")` as the generated file spells it. */
  const ContextIdent := "context.Context"

  /** One entry of a generated method's return list. */
  datatype Ret = Response(ident: string, isList: bool) | ResultCode | TotalCount | TotalPage | PageTotal | Error

  /** The Go type of a return entry: a pointer to the response record or to a
      slice of pointers to records, `int` for the counters, `error` last. */
  function RetType(r: Ret): string {
    match r
    case Response(ident, isList) => if isList then "*[]*" + ident else "*" + ident
    case Error => "error"
    case _ => "int"
  }

  /** The position of each kind of entry in the fixed return order. */
  function Rank(r: Ret): nat {
    match r
    case Response(_, _) => 0
    case ResultCode => 1
    case TotalCount => 2
    case TotalPage => 3
    case PageTotal => 4
    case Error => 5
  }

  function Opt(present: bool, r: Ret): seq<Ret> {
    if present then [r] else []
  }

  function ResponseReturn(slot: Option<Field>): seq<Ret> {
    match slot
    case Some(Field(_, Some(t), isList)) => [Response(t.ident, isList)]
    case _ => []
  }

  /** The return list a message's fields call for: the response, the result
      code, the total count, then (in implementations only) the page
      counters, and the error.  The interface leaves the page counters out. */
  function Returns(s: Shape, withPages: bool): seq<Ret> {
    ResponseReturn(s.rsp) + CounterReturns(s, withPages)
  }

  /** The return list after the response entry. */
  function CounterReturns(s: Shape, withPages: bool): seq<Ret> {
    Opt(s.result, ResultCode) + (Opt(s.totalCount, TotalCount) + PageReturns(s, withPages))
  }

  /** The return list after the total count. */
  function PageReturns(s: Shape, withPages: bool): seq<Ret> {
    Opt(withPages && s.totalPage, TotalPage) + (Opt(withPages && s.pageTotal, PageTotal) + [Error])
  }

  /** A return list written as Go source: the types separated by `, `. */
  function JoinTypes(rs: seq<Ret>): string {
    if |rs| == 0 then ""
    else if |rs| == 1 then RetType(rs[0])
    else RetType(rs[0]) + ", " + JoinTypes(rs[1..])
  }

  /** The pieces the generator concatenates, each ending in `, ` when present. */
  function RspPiece(slot: Option<Field>): string {
    match slot
    case Some(Field(_, Some(t), isList)) => (if isList then "*[]*" + t.ident else "*" + t.ident) + ", "
    case _ => ""
  }

  function IntPiece(present: bool): string {
    if present then "int, " else ""
  }

  /** The request parameter: `*T` in the interface, `req *T` in the
      implementation, nothing without a `Req` message field. */
  function ReqParam(slot: Option<Field>, named: bool): string {
    match slot
    case Some(Field(_, Some(t), _)) => (if named then "req *" else "*") + t.ident
    case _ => ""
  }

  /** The return list as the generator writes it: the present pieces, then
      `error`; the page counters only when `withPages`. */
  function ReturnPieces(s: Shape, withPages: bool): string {
    RspPiece(s.rsp) + (IntPiece(s.result) + (IntPiece(s.totalCount)
      + ((if withPages then IntPiece(s.totalPage) + IntPiece(s.pageTotal) else "") + "error")))
  }

  /** interfaceSignature: one line of the generated interface. */
  function InterfaceSignature(m: Message): string {
    var s := ShapeOf(m.fields);
    m.goName + "(" + ContextIdent + ", " + ReqParam(s.req, false) + ") (" + ReturnPieces(s, false) + ")"
  }

  /** The first line implFuncSignature prints for a message. */
  function ImplSignature(implName: string, m: Message): string {
    var s := ShapeOf(m.fields);
    "func " + EnclosureIdent(implName) + m.goName + "(" + ImplContextParam + ", " + ReqParam(s.req, true) + ") ("
      + ReturnPieces(s, true) + ") {"
  }

  /** The context parameter of implementation methods, written literally by
      the generator rather than qualified. */
  const ImplContextParam := "ctx context.Context"

  /** The line declaring the result container, empty without a `Rsp` message field. */
  function Container(slot: Option<Field>): string {
    match slot
    case Some(Field(_, Some(t), isList)) => if isList then "res := &[]*" + t.ident + "{}" else "res := &" + t.ident + "{}"
    case _ => ""
  }

  /** The template between double quotes, with no escaping. */
  function Quote(raw: string): string {
    "\"" + raw + "\""
  }

  /** `, req.<name>` for every argument, in order. */
  function ArgList(args: seq<string>): string {
    if args == [] then ""
    else ArgList(args[..|args| - 1]) + ", req." + args[|args| - 1]
  }

  function RawLine(raw: string, args: seq<string>): string {
    "Raw(" + Quote(raw) + ArgList(args) + ")."
  }

  /** What callSqlSignature prints: the container, the query chain and the return. */
  function QueryBody(m: Message, camel: string -> string): seq<string>
    requires Emittable(m)
  {
    [ Container(LastPlaying(m.fields, RspRole)),
      "err := r.db.WithContext(ctx).",
      RawLine(m.sql.value, ReqArgs(m.fields, camel)),
      "Scan(res).",
      "Error",
      "return res, err" ]
  }

  /** What implFuncSignature prints: signature, body, closing brace, blank line. */
  function ImplMethod(implName: string, m: Message, camel: string -> string): seq<string>
    requires Emittable(m)
  {
    [ImplSignature(implName, m)] + QueryBody(m, camel) + ["}", ""]
  }

  // ----- the return list -----

  lemma JoinTypesCons(r: Ret, rest: seq<Ret>)
    requires rest != []
    ensures JoinTypes([r] + rest) == RetType(r) + ", " + JoinTypes(rest)
  {
    assert ([r] + rest)[1..] == rest;
  }

  lemma JoinTypesOpt(present: bool, r: Ret, rest: seq<Ret>)
    requires rest != []
    ensures JoinTypes(Opt(present, r) + rest) == (if present then RetType(r) + ", " else "") + JoinTypes(rest)
  {
    if present {
      JoinTypesCons(r, rest);
    } else {
      assert Opt(present, r) + rest == rest;
    }
  }

  /** An optional counter in front of a return list adds its `int, ` piece. */
  lemma JoinTypesInt(present: bool, r: Ret, rest: seq<Ret>)
    requires rest != [] && RetType(r) == "int"
    ensures JoinTypes(Opt(present, r) + rest) == IntPiece(present) + JoinTypes(rest)
  {
    JoinTypesOpt(present, r, rest);
    assert "int" + ", " == "int, ";
  }

  lemma JoinTypesResponse(slot: Option<Field>, rest: seq<Ret>)
    requires rest != []
    ensures JoinTypes(ResponseReturn(slot) + rest) == RspPiece(slot) + JoinTypes(rest)
  {
    match slot
    case Some(Field(_, Some(t), isList)) =>
      JoinTypesCons(Response(t.ident, isList), rest);
    case _ =>
      assert ResponseReturn(slot) + rest == rest;
  }

  lemma PagePiecesSpellTail(s: Shape, withPages: bool)
    ensures JoinTypes(PageReturns(s, withPages))
         == (if withPages then IntPiece(s.totalPage) + IntPiece(s.pageTotal) else "") + "error"
  {
    var r5: seq<Ret> := [Error];
    var r4 := Opt(withPages && s.pageTotal, PageTotal) + r5;
    JoinTypesInt(withPages && s.pageTotal, PageTotal, r5);
    JoinTypesInt(withPages && s.totalPage, TotalPage, r4);
  }

  /** The return pieces the generator concatenates spell out the return
      list, entry by entry, in order. */
  lemma {:induction false} ReturnPiecesSpellReturns(s: Shape, withPages: bool)
    ensures ReturnPieces(s, withPages) == JoinTypes(Returns(s, withPages))
  {
    CountersSpell(s, withPages);
    JoinTypesResponse(s.rsp, CounterReturns(s, withPages));
  }

  /** The counter pieces spell the entries after the response. */
  lemma CountersSpell(s: Shape, withPages: bool)
    ensures JoinTypes(CounterReturns(s, withPages))
         == IntPiece(s.result) + (IntPiece(s.totalCount)
              + ((if withPages then IntPiece(s.totalPage) + IntPiece(s.pageTotal) else "") + "error"))
  {
    var r3 := PageReturns(s, withPages);
    var r2 := Opt(s.totalCount, TotalCount) + r3;
    var t3 := (if withPages then IntPiece(s.totalPage) + IntPiece(s.pageTotal) else "") + "error";
    PagePiecesSpellTail(s, withPages);
    JoinTypesInt(s.totalCount, TotalCount, r3);
    JoinTypesInt(s.result, ResultCode, r2);
  }

  /** The interface method takes a context and the request, and returns the
      list `Returns(s, false)`: response, result code, total count, error. */
  lemma InterfaceSignatureShape(m: Message)
    ensures var s := ShapeOf(m.fields);
      InterfaceSignature(m)
        == m.goName + "(" + ContextIdent + ", " + ReqParam(s.req, false) + ") (" + JoinTypes(Returns(s, false)) + ")"
  {
    ReturnPiecesSpellReturns(ShapeOf(m.fields), false);
  }

  /** The implementation method has the receiver, a named context, the named
      request, and returns `Returns(s, true)`, which adds the page counters. */
  lemma ImplSignatureShape(implName: string, m: Message)
    ensures var s := ShapeOf(m.fields);
      ImplSignature(implName, m)
        == "func " + EnclosureIdent(implName) + m.goName + "(" + ImplContextParam + ", " + ReqParam(s.req, true) + ") ("
             + JoinTypes(Returns(s, true)) + ") {"
  {
    ReturnPiecesSpellReturns(ShapeOf(m.fields), true);
  }

  /** The two parameter lists agree: the implementation only names them. */
  lemma ParamsAgree(slot: Option<Field>)
    ensures ImplContextParam == "ctx " + ContextIdent
    ensures ReqParam(slot, true) == if ReqParam(slot, false) == "" then "" else "req " + ReqParam(slot, false)
  {
  }

  /** Return entries appear in the fixed order and `error` is always last. */
  lemma ReturnsInFixedOrder(s: Shape, withPages: bool)
    ensures var rs := Returns(s, withPages);
      |rs| >= 1 && rs[|rs| - 1] == Error
      && forall i, j :: 0 <= i < j < |rs| ==> Rank(rs[i]) < Rank(rs[j])
  {
    CountersAscending(s, withPages);
    FrontAscending(ResponseReturn(s.rsp), CounterReturns(s, withPages), 0);
  }

  /** The entries after the response are ascending, all above the response's
      rank, and end with the error. */
  lemma CountersAscending(s: Shape, withPages: bool)
    ensures var cs := CounterReturns(s, withPages);
      cs != [] && Ascending(cs) && RanksAbove(cs, 0) && cs[|cs| - 1] == Error
  {
    var r3 := PageReturns(s, withPages);
    PagesAscending(s, withPages);
    OptAscending(s.totalCount, TotalCount, r3);
    OptAscending(s.result, ResultCode, Opt(s.totalCount, TotalCount) + r3);
  }

  /** The entries after the total count are ascending, all above its rank,
      and end with the error. */
  lemma PagesAscending(s: Shape, withPages: bool)
    ensures var ps := PageReturns(s, withPages);
      ps != [] && Ascending(ps) && RanksAbove(ps, 2) && ps[|ps| - 1] == Error
  {
    OptAscending(withPages && s.pageTotal, PageTotal, [Error]);
    OptAscending(withPages && s.totalPage, TotalPage, Opt(withPages && s.pageTotal, PageTotal) + [Error]);
  }

  /** Ranks strictly increase along `rs`. */
  ghost predicate Ascending(rs: seq<Ret>) {
    forall i, j :: 0 <= i < j < |rs| ==> Rank(rs[i]) < Rank(rs[j])
  }

  /** Every rank in `rs` exceeds `k`. */
  ghost predicate RanksAbove(rs: seq<Ret>, k: int) {
    forall i :: 0 <= i < |rs| ==> k < Rank(rs[i])
  }

  /** At most one entry of rank `k` in front of an ascending list whose ranks
      all exceed `k` keeps it ascending, with every rank above `k - 1`, and
      keeps its last entry. */
  lemma FrontAscending(front: seq<Ret>, rest: seq<Ret>, k: int)
    requires |front| <= 1 && (|front| == 1 ==> Rank(front[0]) == k)
    requires rest != [] && Ascending(rest) && RanksAbove(rest, k)
    ensures Ascending(front + rest) && RanksAbove(front + rest, k - 1)
    ensures (front + rest)[|front + rest| - 1] == rest[|rest| - 1]
  {
  }

  /** An optional entry in front of an ascending list of higher ranks. */
  lemma OptAscending(present: bool, r: Ret, rest: seq<Ret>)
    requires rest != [] && Ascending(rest) && RanksAbove(rest, Rank(r))
    ensures Ascending(Opt(present, r) + rest) && RanksAbove(Opt(present, r) + rest, Rank(r) - 1)
    ensures (Opt(present, r) + rest)[|Opt(present, r) + rest| - 1] == rest[|rest| - 1]
  {
    FrontAscending(Opt(present, r), rest, Rank(r));
  }

  /** Each optional entry is present exactly when the shape records it; the
      page counters only in implementations. */
  lemma ReturnsPresence(s: Shape, withPages: bool)
    ensures var rs := Returns(s, withPages);
      && (rs[0].Response? <==> s.rsp.Some? && s.rsp.value.message.Some?)
      && (ResultCode in rs <==> s.result)
      && (TotalCount in rs <==> s.totalCount)
      && (TotalPage in rs <==> withPages && s.totalPage)
      && (PageTotal in rs <==> withPages && s.pageTotal)
  {
    var cs := CounterReturns(s, withPages);
    CountersFirst(s, withPages);
    CountersPresence(s, withPages);
    InTail(s.rsp, cs, ResultCode);
    InTail(s.rsp, cs, TotalCount);
    InTail(s.rsp, cs, TotalPage);
    InTail(s.rsp, cs, PageTotal);
  }

  /** The entries after the response are never a response. */
  lemma CountersFirst(s: Shape, withPages: bool)
    ensures CounterReturns(s, withPages) != [] && !CounterReturns(s, withPages)[0].Response?
  {
  }

  /** The counters in the return list are those the shape records. */
  lemma CountersPresence(s: Shape, withPages: bool)
    ensures var cs := CounterReturns(s, withPages);
      && (ResultCode in cs <==> s.result)
      && (TotalCount in cs <==> s.totalCount)
      && (TotalPage in cs <==> withPages && s.totalPage)
      && (PageTotal in cs <==> withPages && s.pageTotal)
  {
    var r4 := Opt(withPages && s.pageTotal, PageTotal) + [Error];
    var r3 := PageReturns(s, withPages);
    var r2 := Opt(s.totalCount, TotalCount) + r3;
    InOpt(withPages && s.pageTotal, PageTotal, [Error]);
    InOpt(withPages && s.totalPage, TotalPage, r4);
    InOpt(s.totalCount, TotalCount, r3);
    InOpt(s.result, ResultCode, r2);
  }

  /** Entries other than the response are found past the response entry. */
  lemma InTail(slot: Option<Field>, rest: seq<Ret>, x: Ret)
    requires !x.Response? && rest != [] && !rest[0].Response?
    ensures (ResponseReturn(slot) + rest)[0].Response? <==> slot.Some? && slot.value.message.Some?
    ensures x in ResponseReturn(slot) + rest <==> x in rest
  {
  }

  /** An optional entry in front of a list adds exactly that entry. */
  lemma InOpt(present: bool, r: Ret, rest: seq<Ret>)
    ensures forall x :: x in Opt(present, r) + rest <==> (present && x == r) || x in rest
  {
  }

  /** The return list is the entries up to the total count, then the rest. */
  lemma ReturnsSplit(s: Shape, withPages: bool)
    ensures Returns(s, withPages)
         == ResponseReturn(s.rsp) + (Opt(s.result, ResultCode) + Opt(s.totalCount, TotalCount)) + PageReturns(s, withPages)
  {
    AppendAssoc(Opt(s.result, ResultCode), Opt(s.totalCount, TotalCount), PageReturns(s, withPages));
    AppendAssoc(ResponseReturn(s.rsp), Opt(s.result, ResultCode) + Opt(s.totalCount, TotalCount), PageReturns(s, withPages));
  }

  /** The implementation's return list is the interface's with the page
      counters inserted before `error`; the interface never has them. */
  lemma InterfaceOmitsPageCounters(s: Shape)
    ensures TotalPage !in Returns(s, false) && PageTotal !in Returns(s, false)
    ensures var iface := Returns(s, false);
      Returns(s, true)
        == iface[..|iface| - 1] + Opt(s.totalPage, TotalPage) + Opt(s.pageTotal, PageTotal) + [Error]
  {
    var head := ResponseReturn(s.rsp) + (Opt(s.result, ResultCode) + Opt(s.totalCount, TotalCount));
    ReturnsSplit(s, false);
    ReturnsSplit(s, true);
    assert PageReturns(s, false) == [Error];
    assert (head + [Error])[..|head|] == head;
    AppendAssoc(head, Opt(s.totalPage, TotalPage), Opt(s.pageTotal, PageTotal) + [Error]);
    AppendAssoc(head + Opt(s.totalPage, TotalPage), Opt(s.pageTotal, PageTotal), [Error]);
    ReturnsPresence(s, false);
  }

  /** The container's address has the response type the method returns, or
      there is no container and no response entry. */
  lemma ContainerMatchesResponse(s: Shape, withPages: bool)
    requires s.rsp.Some? ==> s.rsp.value.message.Some?
    ensures var rs := Returns(s, withPages);
      && (s.rsp.None? ==> Container(s.rsp) == "" && !rs[0].Response?)
      && (s.rsp.Some? ==> rs[0].Response? && RetType(rs[0])[0] == '*'
                          && Container(s.rsp) == "res := &" + RetType(rs[0])[1..] + "{}")
  {
    CountersFirst(s, withPages);
    match s.rsp
    case Some(Field(_, Some(t), isList)) =>
      var ty := RetType(Response(t.ident, isList));
      if isList {
        assert ty[1..] == "[]*" + t.ident;
      } else {
        assert ty[1..] == t.ident;
      }
    case None =>
  }

  // ----- the field loops, one field at a time -----

  /** The request parameter after one more field. */
  lemma ReqParamStep(fields: seq<Field>, i: nat, named: bool)
    requires i < |fields|
    ensures var f := fields[i];
      ReqParam(LastPlaying(fields[..i + 1], ReqRole), named)
        == if f.goName == "Req" && f.message.Some? then (if named then "req *" else "*") + f.message.value.ident
           else ReqParam(LastPlaying(fields[..i], ReqRole), named)
  {
    LastPlayingStep(fields, i, ReqRole);
    PlaysByName(fields[i]);
  }

  /** The response piece after one more field. */
  lemma RspPieceStep(fields: seq<Field>, i: nat)
    requires i < |fields|
    ensures var f := fields[i];
      RspPiece(LastPlaying(fields[..i + 1], RspRole))
        == if f.goName == "Rsp" && f.message.Some? then
             (if f.isList then "*[]*" + f.message.value.ident + ", " else "*" + f.message.value.ident + ", ")
           else RspPiece(LastPlaying(fields[..i], RspRole))
  {
    LastPlayingStep(fields, i, RspRole);
    PlaysByName(fields[i]);
  }

  /** A counter's piece after one more field. */
  lemma IntPieceStep(fields: seq<Field>, i: nat, role: Role)
    requires i < |fields| && !NeedsMessage(role)
    ensures IntPiece(Has(fields[..i + 1], role))
         == if fields[i].goName == RoleName(role) then "int, " else IntPiece(Has(fields[..i], role))
  {
    LastPlayingStep(fields, i, role);
  }

  /** The container line after one more field. */
  lemma ContainerStep(fields: seq<Field>, i: nat)
    requires i < |fields|
    ensures var f := fields[i];
      Container(LastPlaying(fields[..i + 1], RspRole))
        == if f.goName == "Rsp" && f.message.Some? then
             (if f.isList then "res := &[]*" + f.message.value.ident + "{}" else "res := &" + f.message.value.ident + "{}")
           else Container(LastPlaying(fields[..i], RspRole))
  {
    LastPlayingStep(fields, i, RspRole);
    PlaysByName(fields[i]);
  }

  // ----- the query body -----

  /** Arguments are appended one after another: the list of a concatenation
      is the concatenation of the lists. */
  lemma {:induction false} ArgListAppend(a: seq<string>, b: seq<string>)
    ensures ArgList(a + b) == ArgList(a) + ArgList(b)
    decreases |b|
  {
    if b == [] {
      assert a + b == a;
    } else {
      var b' := b[..|b| - 1];
      assert (a + b)[..|a + b| - 1] == a + b';
      ArgListAppend(a, b');
    }
  }

  /** The template appears verbatim, between quotes, right after `Raw(`, and
      the line ends with `).`. */
  lemma RawLineKeepsTemplate(raw: string, args: seq<string>)
    ensures var line := RawLine(raw, args);
      |line| >= |raw| + 8
      && line[..5] == "Raw(\"" && line[5..|raw| + 5] == raw && line[|raw| + 5] == '"'
      && line[|line| - 2..] == ")."
  {
    var line := RawLine(raw, args);
    assert line == "Raw(\"" + raw + ("\"" + ArgList(args) + ").");
  }

  /** With a single `Req` field, `Raw` receives the template and one
      `req.<Name>` per field of the request message, in declaration order. */
  lemma QueryArgumentsOfSingleReq(m: Message, camel: string -> string, i: nat)
    requires Emittable(m)
    requires i < |m.fields| && m.fields[i].goName == "Req"
    requires forall j :: 0 <= j < |m.fields| && j != i ==> m.fields[j].goName != "Req"
    ensures var names := m.fields[i].message.value.fieldGoNames;
      QueryBody(m, camel)[2] == "Raw(" + Quote(m.sql.value) + ArgList(CamelAll(names, camel)) + ")."
  {
    ReqArgsSingle(m.fields, camel, i);
  }
}
