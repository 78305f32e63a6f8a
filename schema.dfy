/** The generator's input, abstracted from the protobuf compiler's plugin API:
    a schema file is a path plus its messages, a message is a Go name, an
    optional raw SQL template (the `sql` message option) and its fields. */
module Schema {

  datatype Option<+T> = None | Some(value: T)

  /** A message type that a field refers to: its Go identifier as the
      generated code spells it (already qualified for the output file) and
      the Go names of its own fields, in declaration order. */
  datatype MessageType = MessageType(ident: string, fieldGoNames: seq<string>)

  /** A field: its Go name, the message type it holds (None for scalars and
      enums) and whether it is declared `repeated`. */
  datatype Field = Field(goName: string, message: Option<MessageType>, isList: bool)

  /** A message: its Go name, the raw template of its `sql` option when the
      option is set, and its fields in declaration order. */
  datatype Message = Message(goName: string, sql: Option<string>, fields: seq<Field>)

  /** A schema file: the proto path (`file.Proto.GetName()`), the prefix of
      the generated file name, the Go package name and the top-level
      messages in declaration order. */
  datatype File = File(path: string, filenamePrefix: string, goPackageName: string, messages: seq<Message>)

  /** The filter both loops of the generator apply: the message carries the
      `sql` option. */
  predicate IsAnnotated(m: Message) {
    m.sql.Some?
  }

  /** Every field named `Req` refers to a message type.  The query body reads
      the fields of `Req` without checking that it is a message, so the
      generator may only be run on messages where this holds. */
  predicate ReqFieldsTyped(fields: seq<Field>) {
    forall i :: 0 <= i < |fields| && fields[i].goName == "Req" ==> fields[i].message.Some?
  }

  /** A message for which an implementation method can be emitted. */
  predicate Emittable(m: Message) {
    IsAnnotated(m) && ReqFieldsTyped(m.fields)
  }

  /** The precondition of generating a file: every annotated message is emittable. */
  predicate Generatable(f: File) {
    forall i :: 0 <= i < |f.messages| && IsAnnotated(f.messages[i]) ==> ReqFieldsTyped(f.messages[i].fields)
  }

  /** The annotated messages, in declaration order. */
  function Annotated(ms: seq<Message>): (r: seq<Message>)
    ensures |r| <= |ms|
  {
    if ms == [] then []
    else
      var last := ms[|ms| - 1];
      Annotated(ms[..|ms| - 1]) + (if IsAnnotated(last) then [last] else [])
  }

  /** The annotated messages are exactly the messages carrying a template. */
  lemma {:induction false} AnnotatedMembers(ms: seq<Message>)
    ensures forall m :: m in Annotated(ms) <==> m in ms && IsAnnotated(m)
  {
    if ms != [] {
      var init := ms[..|ms| - 1];
      AnnotatedMembers(init);
      assert ms == init + [ms[|ms| - 1]];
    }
  }

  /** One more message joins the annotated ones when it carries a template. */
  lemma AnnotatedStep(ms: seq<Message>, i: nat)
    requires i < |ms|
    ensures Annotated(ms[..i + 1]) == Annotated(ms[..i]) + (if IsAnnotated(ms[i]) then [ms[i]] else [])
  {
    assert ms[..i + 1][..i] == ms[..i];
  }

  /** Filtering commutes with concatenation: a message declared before
      another keeps its place among the annotated ones. */
  lemma {:induction false} AnnotatedAppend(a: seq<Message>, b: seq<Message>)
    ensures Annotated(a + b) == Annotated(a) + Annotated(b)
    decreases |b|
  {
    if b == [] {
      assert a + b == a;
    } else {
      var b' := b[..|b| - 1];
      assert (a + b)[..|a + b| - 1] == a + b';
      AnnotatedAppend(a, b');
    }
  }

  /** A file with no annotated message yields no annotated message to emit. */
  lemma {:induction false} AnnotatedEmpty(ms: seq<Message>)
    requires forall i :: 0 <= i < |ms| ==> !IsAnnotated(ms[i])
    ensures Annotated(ms) == []
  {
    if ms != [] {
      var init := ms[..|ms| - 1];
      assert forall i :: 0 <= i < |init| ==> init[i] == ms[i];
      AnnotatedEmpty(init);
    }
  }

  /** Concatenation regrouped, for sequences of any element type. */
  lemma AppendAssoc<T>(a: seq<T>, b: seq<T>, c: seq<T>)
    ensures a + b + c == a + (b + c)
  {
  }
}
