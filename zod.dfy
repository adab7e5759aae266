/**
 * The slice of zod's behaviour the two schemas use: a string field that is
 * type-tested and trimmed, non-fatal checks, `.refine`/`.superRefine` with an
 * optional fatal issue, `safeParseAsync`, and `error.flatten()`.
 *
 * A parse in progress is a Stage: either aborted (a wrong type, or a fatal
 * issue) or still carrying a value together with the issues found so far
 * (zod's "dirty" status is "issues non-empty"). Refinements are skipped once a
 * stage is aborted and run otherwise, dirty or not.
 */
module Zod {

  import opened Wrappers
  import JsString

  /** What `FormData.get` hands the schema: text, `null` for a missing entry, or an uploaded File. */
  datatype FormValue = Text(text: string) | Absent | Upload

  /** An issue scoped to the first element of its path, a top-level field of the form. */
  datatype Issue = Issue(field: string, message: string)

  /** The `{formErrors, fieldErrors}` record that `flatten()` produces and the actions return. */
  datatype Flattened = Flattened(formErrors: seq<string>, fieldErrors: map<string, seq<string>>)

  datatype Stage<T> = Aborted(issues: seq<Issue>) | Running(issues: seq<Issue>, value: T)

  /** The outcome of `safeParseAsync`. */
  datatype SafeParse<T> = Success(data: T) | Failure(error: Flattened)

  /** The messages of `issues` on `field`, in the order they were raised. */
  function MessagesFor(issues: seq<Issue>, field: string): seq<string>
  {
    if issues == [] then []
    else (if issues[0].field == field then [issues[0].message] else []) + MessagesFor(issues[1..], field)
  }

  lemma MessagesForSingle(i: Issue, field: string)
    ensures MessagesFor([i], field) == if i.field == field then [i.message] else []
  {
    assert [i][1..] == [];
  }

  /** Issues raised one after the other keep their per-field order. */
  lemma {:induction false} MessagesForAppend(a: seq<Issue>, b: seq<Issue>, field: string)
    ensures MessagesFor(a + b, field) == MessagesFor(a, field) + MessagesFor(b, field)
  {
    if a == [] {
      assert a + b == b;
    } else {
      assert (a + b)[1..] == a[1..] + b;
      MessagesForAppend(a[1..], b, field);
    }
  }

  /** A message is listed on a field exactly when an issue with that field and message was raised. */
  lemma {:induction false} MessagesForMember(issues: seq<Issue>, field: string, message: string)
    ensures message in MessagesFor(issues, field) <==> Issue(field, message) in issues
  {
    if issues != [] {
      MessagesForMember(issues[1..], field, message);
      assert issues == [issues[0]] + issues[1..];
    }
  }

  /** The messages a caller finds on `field`, `[]` when the record has no entry for it. */
  function ErrorsOn(e: Flattened, field: string): seq<string>
  {
    if field in e.fieldErrors then e.fieldErrors[field] else []
  }

  /** One step of `flatten()`: the issue's message is pushed onto its field's list, which is created when missing. */
  function Push(e: Flattened, i: Issue): Flattened
  {
    e.(fieldErrors := e.fieldErrors[i.field := ErrorsOn(e, i.field) + [i.message]])
  }

  /**
   * `error.flatten()`: the issues are walked in order, each pushed onto the
   * list of the field its path starts with. Every issue here names a field,
   * so `formErrors` stays empty.
   */
  function Flatten(issues: seq<Issue>): Flattened
  {
    if issues == [] then Flattened([], map[])
    else Push(Flatten(issues[..|issues| - 1]), issues[|issues| - 1])
  }

  /**
   * The flattened record has no form-level message, has an entry for exactly
   * the fields some issue names, and lists each field's messages in the order
   * they were raised.
   */
  lemma {:induction false} FlattenMeaning(issues: seq<Issue>, field: string)
    ensures Flatten(issues).formErrors == []
    ensures field in Flatten(issues).fieldErrors <==> MessagesFor(issues, field) != []
    ensures ErrorsOn(Flatten(issues), field) == MessagesFor(issues, field)
  {
    if issues != [] {
      var n := |issues| - 1;
      FlattenMeaning(issues[..n], field);
      assert issues == issues[..n] + [issues[n]];
      MessagesForAppend(issues[..n], [issues[n]], field);
      MessagesForSingle(issues[n], field);
    }
  }

  /** What a caller reads off a flattened record is exactly the field's messages, in order. */
  lemma FlattenErrorsOn(issues: seq<Issue>, field: string, message: string)
    ensures ErrorsOn(Flatten(issues), field) == MessagesFor(issues, field)
    ensures message in ErrorsOn(Flatten(issues), field) <==> Issue(field, message) in issues
  {
    FlattenMeaning(issues, field);
    MessagesForMember(issues, field, message);
  }

  /** One issue on `field` per message, in order. */
  function OnField(field: string, messages: seq<string>): (r: seq<Issue>)
    ensures |r| == |messages|
  {
    if messages == [] then [] else [Issue(field, messages[0])] + OnField(field, messages[1..])
  }

  /** Issues raised on one field show up on that field and on no other. */
  lemma {:induction false} MessagesForOnField(field: string, messages: seq<string>, other: string)
    ensures MessagesFor(OnField(field, messages), field) == messages
    ensures other != field ==> MessagesFor(OnField(field, messages), other) == []
  {
    if messages != [] {
      MessagesForOnField(field, messages[1..], other);
      assert messages == [messages[0]] + messages[1..];
    }
  }

  /** Issues on one field followed by others: the field's messages come first. */
  lemma MessagesForFront(f: string, m: seq<string>, rest: seq<Issue>, field: string)
    ensures MessagesFor(OnField(f, m) + rest, field) == (if field == f then m else []) + MessagesFor(rest, field)
  {
    MessagesForAppend(OnField(f, m), rest, field);
    MessagesForOnField(f, m, field);
  }

  /** Issues raised on four distinct fields: each field keeps its own messages, in order. */
  lemma MessagesForFourFields(f1: string, m1: seq<string>, f2: string, m2: seq<string>, f3: string, m3: seq<string>,
                              f4: string, m4: seq<string>, field: string)
    requires f1 != f2 && f1 != f3 && f1 != f4 && f2 != f3 && f2 != f4 && f3 != f4
    ensures MessagesFor(OnField(f1, m1) + (OnField(f2, m2) + (OnField(f3, m3) + OnField(f4, m4))), field) ==
      if field == f1 then m1 else if field == f2 then m2 else if field == f3 then m3 else if field == f4 then m4 else []
  {
    var c := OnField(f3, m3) + OnField(f4, m4);
    var b := OnField(f2, m2) + c;
    MessagesForFront(f1, m1, b, field);
    MessagesForFront(f2, m2, c, field);
    MessagesForFront(f3, m3, OnField(f4, m4), field);
    MessagesForOnField(f4, m4, field);
    if field == f1 {
      assert MessagesFor(b, field) == [];
    } else if field == f2 {
      assert MessagesFor(c, field) == [];
    }
  }

  lemma MessagesForTwoFields(f1: string, m1: seq<string>, f2: string, m2: seq<string>, field: string)
    requires f1 != f2
    ensures MessagesFor(OnField(f1, m1) + OnField(f2, m2), field) ==
      (if field == f1 then m1 else if field == f2 then m2 else [])
  {
    MessagesForAppend(OnField(f1, m1), OnField(f2, m2), field);
    MessagesForOnField(f1, m1, field);
    MessagesForOnField(f2, m2, field);
  }

  /** The flattened record of a two-field object: each field's own messages, and no other key. */
  lemma FlattenTwoFields(f1: string, m1: seq<string>, f2: string, m2: seq<string>)
    requires f1 != f2
    ensures var e := Flatten(OnField(f1, m1) + OnField(f2, m2));
      && e.formErrors == []
      && ErrorsOn(e, f1) == m1 && ErrorsOn(e, f2) == m2
      && (forall f :: f in e.fieldErrors ==> f == f1 || f == f2)
  {
    var issues := OnField(f1, m1) + OnField(f2, m2);
    forall f ensures f in Flatten(issues).fieldErrors <==> MessagesFor(issues, f) != [] {
      FlattenMeaning(issues, f);
    }
    forall f ensures MessagesFor(issues, f) == (if f == f1 then m1 else if f == f2 then m2 else []) {
      MessagesForTwoFields(f1, m1, f2, m2, f);
    }
    FlattenMeaning(issues, f1);
    FlattenMeaning(issues, f2);
  }

  /** zod's default text for a wrong type, or the schema's `invalid_type_error` when it sets one. */
  function TypeMessage(invalidTypeError: Option<string>, received: string): string
  {
    match invalidTypeError
    case Some(m) => m
    case None => "Expected string, received " + received
  }

  /** The messages a wrong type produces on a string field: none for text, the type message otherwise. */
  function TypeMessages(v: FormValue, invalidTypeError: Option<string>): seq<string>
  {
    match v
    case Text(_) => []
    case Absent => [TypeMessage(invalidTypeError, "null")]
    case Upload => [TypeMessage(invalidTypeError, "object")]
  }

  /**
   * `z.string({...}).trim()` followed by the field's checks and non-fatal
   * refinements: a non-string aborts with a type issue; a string is trimmed,
   * every check runs on the trimmed text, and `failures` lists the messages
   * of those that fail, in declaration order.
   */
  function CheckedString(field: string, v: FormValue, invalidTypeError: Option<string>, failures: string -> seq<string>): Stage<string>
  {
    match v
    case Text(s) => Running(OnField(field, failures(JsString.Trim(s))), JsString.Trim(s))
    case Absent => Aborted([Issue(field, TypeMessage(invalidTypeError, "null"))])
    case Upload => Aborted([Issue(field, TypeMessage(invalidTypeError, "object"))])
  }

  /** An issue on `field` when `ok` fails. */
  function Rule(ok: bool, field: string, message: string): Option<Issue>
  {
    if ok then None else Some(Issue(field, message))
  }

  /**
   * One check or refinement: skipped on an aborted stage, otherwise run on the
   * current value; its issue is appended, and aborts the stage when fatal.
   */
  function Refine<T>(st: Stage<T>, rule: T -> Option<Issue>, fatal: bool): Stage<T>
  {
    match st
    case Aborted(_) => st
    case Running(issues, v) =>
      match rule(v)
      case None => st
      case Some(i) => if fatal then Aborted(issues + [i]) else Running(issues + [i], v)
  }

  /** `safeParseAsync`: success only for a stage that is neither aborted nor dirty. */
  function Finish<T>(st: Stage<T>): SafeParse<T>
  {
    if st.Running? && st.issues == [] then Success(st.value) else Failure(Flatten(st.issues))
  }
}
