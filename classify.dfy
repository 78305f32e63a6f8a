/** How the generator reads a message's fields: by exact Go name, the last
    matching field overwriting earlier ones (the field loops of
    implFuncSignature, callSqlSignature and interfaceSignature). */
module Classify {
  import opened Schema

  /** The six field names the generator recognises. */
  datatype Role = ReqRole | RspRole | ResultRole | TotalCountRole | TotalPageRole | PageTotalRole

  function RoleName(role: Role): string {
    match role
    case ReqRole => "Req"
    case RspRole => "Rsp"
    case ResultRole => "Result"
    case TotalCountRole => "TotalCount"
    case TotalPageRole => "TotalPage"
    case PageTotalRole => "PageTotal"
  }

  /** `Req` and `Rsp` count only when the field holds a message. */
  predicate NeedsMessage(role: Role) {
    role == ReqRole || role == RspRole
  }

  predicate Plays(f: Field, role: Role) {
    f.goName == RoleName(role) && (NeedsMessage(role) ==> f.message.Some?)
  }

  /** The field a forward loop that overwrites a local on every match ends
      up holding: the last field playing `role`, if any. */
  function LastPlaying(fields: seq<Field>, role: Role): (r: Option<Field>)
    ensures r.Some? ==> Plays(r.value, role)
  {
    if fields == [] then None
    else if Plays(fields[|fields| - 1], role) then Some(fields[|fields| - 1])
    else LastPlaying(fields[..|fields| - 1], role)
  }

  /** The tests the field loops write out, role by role. */
  lemma PlaysByName(f: Field)
    ensures Plays(f, ReqRole) <==> f.goName == "Req" && f.message.Some?
    ensures Plays(f, RspRole) <==> f.goName == "Rsp" && f.message.Some?
    ensures Plays(f, ResultRole) <==> f.goName == "Result"
    ensures Plays(f, TotalCountRole) <==> f.goName == "TotalCount"
    ensures Plays(f, TotalPageRole) <==> f.goName == "TotalPage"
    ensures Plays(f, PageTotalRole) <==> f.goName == "PageTotal"
  {
  }

  /** Conversely, a selected field is a field of the message that no later
      field overrides. */
  lemma {:induction false} LastPlayingFound(fields: seq<Field>, role: Role)
    requires LastPlaying(fields, role).Some?
    ensures exists i :: 0 <= i < |fields| && fields[i] == LastPlaying(fields, role).value
                        && forall j :: i < j < |fields| ==> !Plays(fields[j], role)
  {
    var n := |fields|;
    if !Plays(fields[n - 1], role) {
      var init := fields[..n - 1];
      LastPlayingFound(init, role);
      var i :| 0 <= i < |init| && init[i] == LastPlaying(init, role).value
               && forall j :: i < j < |init| ==> !Plays(init[j], role);
      assert fields[i] == LastPlaying(fields, role).value;
      assert forall j :: i < j < n ==> !Plays(fields[j], role) by {
        forall j | i < j < n
          ensures !Plays(fields[j], role)
        {
          if j < n - 1 {
            assert init[j] == fields[j];
          }
        }
      }
    } else {
      assert fields[n - 1] == LastPlaying(fields, role).value;
    }
  }

  /** One more field: it is selected when it plays the role, otherwise the
      selection so far stands. */
  lemma LastPlayingStep(fields: seq<Field>, i: nat, role: Role)
    requires i < |fields|
    ensures LastPlaying(fields[..i + 1], role)
         == if Plays(fields[i], role) then Some(fields[i]) else LastPlaying(fields[..i], role)
  {
    assert fields[..i + 1][..i] == fields[..i];
  }

  predicate Has(fields: seq<Field>, role: Role) {
    LastPlaying(fields, role).Some?
  }

  /** No field is selected exactly when no field plays the role. */
  lemma {:induction false} LastPlayingNone(fields: seq<Field>, role: Role)
    ensures LastPlaying(fields, role).None? <==> forall i :: 0 <= i < |fields| ==> !Plays(fields[i], role)
  {
    if fields != [] {
      var init := fields[..|fields| - 1];
      LastPlayingNone(init, role);
      assert forall i :: 0 <= i < |init| ==> init[i] == fields[i];
    }
  }

  /** Last match wins: the field selected is the one playing the role with
      no later field playing it. */
  lemma {:induction false} LastPlayingLast(fields: seq<Field>, role: Role, i: nat)
    requires i < |fields| && Plays(fields[i], role)
    requires forall j :: i < j < |fields| ==> !Plays(fields[j], role)
    ensures LastPlaying(fields, role) == Some(fields[i])
  {
    if i < |fields| - 1 {
      var init := fields[..|fields| - 1];
      assert forall j :: i < j < |init| ==> init[j] == fields[j];
      LastPlayingLast(init, role, i);
    }
  }

  /** What the field loops of one message end up holding: the last `Req`
      and `Rsp` message fields, and whether each counter field is declared. */
  datatype Shape = Shape(req: Option<Field>, rsp: Option<Field>, result: bool, totalCount: bool, totalPage: bool, pageTotal: bool)

  function ShapeOf(fields: seq<Field>): Shape {
    Shape(LastPlaying(fields, ReqRole), LastPlaying(fields, RspRole),
          Has(fields, ResultRole), Has(fields, TotalCountRole), Has(fields, TotalPageRole), Has(fields, PageTotalRole))
  }

  /** A counter is reported exactly when a field of that name is declared,
      and a response exactly when some `Rsp` field holds a message. */
  lemma ShapeOfPresence(fields: seq<Field>)
    ensures var s := ShapeOf(fields);
      && (s.req.Some? <==> exists i :: 0 <= i < |fields| && Plays(fields[i], ReqRole))
      && (s.rsp.Some? <==> exists i :: 0 <= i < |fields| && Plays(fields[i], RspRole))
      && (s.result <==> exists i :: 0 <= i < |fields| && fields[i].goName == "Result")
      && (s.totalCount <==> exists i :: 0 <= i < |fields| && fields[i].goName == "TotalCount")
      && (s.totalPage <==> exists i :: 0 <= i < |fields| && fields[i].goName == "TotalPage")
      && (s.pageTotal <==> exists i :: 0 <= i < |fields| && fields[i].goName == "PageTotal")
  {
    LastPlayingNone(fields, ReqRole);
    LastPlayingNone(fields, RspRole);
    LastPlayingNone(fields, ResultRole);
    LastPlayingNone(fields, TotalCountRole);
    LastPlayingNone(fields, TotalPageRole);
    LastPlayingNone(fields, PageTotalRole);
  }

  /** `strcase.ToCamel` applied to every name, in order. */
  function CamelAll(names: seq<string>, camel: string -> string): (r: seq<string>)
    ensures |r| == |names|
    ensures forall k :: 0 <= k < |names| ==> r[k] == camel(names[k])
  {
    if names == [] then []
    else CamelAll(names[..|names| - 1], camel) + [camel(names[|names| - 1])]
  }

  lemma ReqFieldsTypedPrefix(fields: seq<Field>, n: nat)
    requires ReqFieldsTyped(fields) && n <= |fields|
    ensures ReqFieldsTyped(fields[..n])
  {
    assert forall i :: 0 <= i < n ==> fields[..n][i] == fields[i];
  }

  /** The names the query body passes to `Raw`: the camel-cased field names
      of every field named `Req`, in declaration order.  Unlike the
      signatures, this loop does not keep only the last `Req`. */
  function ReqArgs(fields: seq<Field>, camel: string -> string): seq<string>
    requires ReqFieldsTyped(fields)
  {
    if fields == [] then []
    else
      var last := fields[|fields| - 1];
      ReqFieldsTypedPrefix(fields, |fields| - 1);
      ReqArgs(fields[..|fields| - 1], camel)
        + (if last.goName == "Req" then CamelAll(last.message.value.fieldGoNames, camel) else [])
  }

  /** One more field adds its request arguments when it is named `Req`. */
  lemma ReqArgsStep(fields: seq<Field>, i: nat, camel: string -> string)
    requires ReqFieldsTyped(fields) && i < |fields|
    ensures ReqFieldsTyped(fields[..i]) && ReqFieldsTyped(fields[..i + 1])
    ensures ReqArgs(fields[..i + 1], camel)
         == ReqArgs(fields[..i], camel)
            + (if fields[i].goName == "Req" then CamelAll(fields[i].message.value.fieldGoNames, camel) else [])
  {
    ReqFieldsTypedPrefix(fields, i);
    ReqFieldsTypedPrefix(fields, i + 1);
    assert fields[..i + 1][..i] == fields[..i];
  }

  /** Every `Req` field contributes its arguments, in field order. */
  lemma {:induction false} ReqArgsAppend(a: seq<Field>, b: seq<Field>, camel: string -> string)
    requires ReqFieldsTyped(a + b)
    ensures ReqFieldsTyped(a) && ReqFieldsTyped(b)
    ensures ReqArgs(a + b, camel) == ReqArgs(a, camel) + ReqArgs(b, camel)
    decreases |b|
  {
    var ab := a + b;
    assert ab[..|a|] == a;
    ReqFieldsTypedPrefix(ab, |a|);
    assert ReqFieldsTyped(b) by {
      forall i | 0 <= i < |b| && b[i].goName == "Req"
        ensures b[i].message.Some?
      {
        assert b[i] == ab[|a| + i];
      }
    }
    if b == [] {
      assert ab == a;
    } else {
      var n := |b| - 1;
      var b' := b[..n];
      assert ab[..|ab| - 1] == a + b';
      ReqFieldsTypedPrefix(ab, |ab| - 1);
      ReqFieldsTypedPrefix(b, n);
      ReqArgsAppend(a, b', camel);
      var more := if b[n].goName == "Req" then CamelAll(b[n].message.value.fieldGoNames, camel) else [];
      assert ReqArgs(ab, camel) == ReqArgs(a + b', camel) + more;
      assert ReqArgs(b, camel) == ReqArgs(b', camel) + more;
      AppendAssoc(ReqArgs(a, camel), ReqArgs(b', camel), more);
    }
  }

  /** With no field named `Req`, `Raw` gets no argument beyond the template. */
  lemma {:induction false} ReqArgsNone(fields: seq<Field>, camel: string -> string)
    requires forall i :: 0 <= i < |fields| ==> fields[i].goName != "Req"
    ensures ReqFieldsTyped(fields) && ReqArgs(fields, camel) == []
  {
    if fields != [] {
      var init := fields[..|fields| - 1];
      assert forall i :: 0 <= i < |init| ==> init[i] == fields[i];
      ReqArgsNone(init, camel);
    }
  }

  /** With exactly one field named `Req`, the arguments are its message's
      fields, camel-cased, one per field, in declaration order. */
  lemma {:induction false} ReqArgsSingle(fields: seq<Field>, camel: string -> string, i: nat)
    requires ReqFieldsTyped(fields)
    requires i < |fields| && fields[i].goName == "Req"
    requires forall j :: 0 <= j < |fields| && j != i ==> fields[j].goName != "Req"
    ensures ReqArgs(fields, camel) == CamelAll(fields[i].message.value.fieldGoNames, camel)
  {
    var before, upTo, after := fields[..i], fields[..i + 1], fields[i + 1..];
    assert fields == upTo + after;
    ReqArgsAppend(upTo, after, camel);
    assert forall j :: 0 <= j < |after| ==> after[j].goName != "Req" by {
      forall j | 0 <= j < |after|
        ensures after[j].goName != "Req"
      {
        assert after[j] == fields[i + 1 + j];
      }
    }
    ReqArgsNone(after, camel);
    assert forall j :: 0 <= j < |before| ==> before[j].goName != "Req" by {
      forall j | 0 <= j < |before|
        ensures before[j].goName != "Req"
      {
        assert before[j] == fields[j];
      }
    }
    ReqArgsNone(before, camel);
    ReqArgsStep(fields, i, camel);
    var names := CamelAll(fields[i].message.value.fieldGoNames, camel);
    assert ReqArgs(upTo, camel) == [] + names;
    assert names + [] == names;
  }
}
