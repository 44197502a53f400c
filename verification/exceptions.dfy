/**
 * exceptions/exception.py: the JSON error body every handler builds, the string form
 * of an API exception, the handler chosen for each kind of exception, the grouping of
 * validation messages by field, and the per-status error documentation of
 * `generate_exception_response`. The `current_time` stamp of a body and logging are
 * not modelled.
 */
module Exceptions {
  import opened Common
  import opened Errors

  // ---------------------------------------------------------------------------------
  // Grouping in insertion order: a `defaultdict(list)` / `setdefault(k, []).append(v)`
  // as an association list whose keys appear in the order they were first added.
  // ---------------------------------------------------------------------------------

  /** The first position holding `k`. */
  function IndexOf<K(==)>(ks: seq<K>, k: K): (r: Option<nat>)
    ensures r.Some? ==> r.value < |ks| && ks[r.value] == k && k in ks
    ensures r.None? <==> k !in ks
  {
    if |ks| == 0 then None
    else if ks[0] == k then Some(0)
    else
      var rest := IndexOf(ks[1..], k);
      if rest.None? then None else Some(rest.value + 1)
  }

  function KeysOf<K, V>(g: seq<(K, V)>): (ks: seq<K>)
    ensures |ks| == |g| && forall i :: 0 <= i < |g| ==> ks[i] == g[i].0
  {
    seq(|g|, i requires 0 <= i < |g| => g[i].0)
  }

  /** The values gathered under `k`, or none. */
  function Lookup<K(==), V>(g: seq<(K, seq<V>)>, k: K): seq<V> {
    var at := IndexOf(KeysOf(g), k);
    if at.Some? then g[at.value].1 else []
  }

  /** `groups[k].append(v)`, opening the group `k` at the end when it is new. */
  function Put<K(==), V>(g: seq<(K, seq<V>)>, k: K, v: V): seq<(K, seq<V>)> {
    var at := IndexOf(KeysOf(g), k);
    if at.Some? then g[at.value := (k, g[at.value].1 + [v])] else g + [(k, [v])]
  }

  /** Every pair, in order, added to its key's group. */
  function Group<K(==), V>(pairs: seq<(K, V)>): seq<(K, seq<V>)>
    decreases |pairs|
  {
    if |pairs| == 0 then []
    else
      var n := |pairs| - 1;
      Put(Group(pairs[..n]), pairs[n].0, pairs[n].1)
  }

  /** Reference: the values paired with `k`, in input order. */
  function ValuesFor<K(==), V>(pairs: seq<(K, V)>, k: K): seq<V>
    decreases |pairs|
  {
    if |pairs| == 0 then []
    else
      var n := |pairs| - 1;
      ValuesFor(pairs[..n], k) + (if pairs[n].0 == k then [pairs[n].1] else [])
  }

  /** Reference: each key once, in order of first appearance. */
  function Distinct<K(==)>(ks: seq<K>): seq<K>
    decreases |ks|
  {
    if |ks| == 0 then []
    else
      var n := |ks| - 1;
      var front := Distinct(ks[..n]);
      if ks[n] in front then front else front + [ks[n]]
  }

  predicate NoDuplicates<K(==)>(ks: seq<K>) {
    forall i, j :: 0 <= i < j < |ks| ==> ks[i] != ks[j]
  }

  lemma {:induction false} DistinctFacts<K>(ks: seq<K>)
    ensures forall k :: k in Distinct(ks) <==> k in ks
    ensures NoDuplicates(Distinct(ks))
    decreases |ks|
  {
    if |ks| > 0 {
      var n := |ks| - 1;
      DistinctFacts(ks[..n]);
      assert ks == ks[..n] + [ks[n]];
    }
  }

  lemma {:induction false} IndexOfAppend<K>(ks: seq<K>, x: K, k: K)
    ensures IndexOf(ks + [x], k) == if k in ks then IndexOf(ks, k) else if x == k then Some(|ks|) else None
    decreases |ks|
  {
    if |ks| > 0 {
      assert (ks + [x])[1..] == ks[1..] + [x];
      IndexOfAppend(ks[1..], x, k);
    } else {
      assert ks + [x] == [x];
    }
  }

  /** Adding to a group changes only that group, at its end, and opens a new key last. */
  lemma {:induction false} PutFacts<K, V>(g: seq<(K, seq<V>)>, k: K, v: V, k': K)
    ensures KeysOf(Put(g, k, v)) == if k in KeysOf(g) then KeysOf(g) else KeysOf(g) + [k]
    ensures Lookup(Put(g, k, v), k') == if k' == k then Lookup(g, k) + [v] else Lookup(g, k')
  {
    var at := IndexOf(KeysOf(g), k);
    var g' := Put(g, k, v);
    if at.Some? {
      assert KeysOf(g') == KeysOf(g);
    } else {
      assert KeysOf(g') == KeysOf(g) + [k];
      IndexOfAppend(KeysOf(g), k, k');
    }
  }

  /** The group of `k` holds exactly the values paired with `k`, in input order. */
  lemma {:induction false} GroupLookup<K, V>(pairs: seq<(K, V)>, k: K)
    ensures Lookup(Group(pairs), k) == ValuesFor(pairs, k)
    decreases |pairs|
  {
    if |pairs| > 0 {
      var n := |pairs| - 1;
      GroupLookup(pairs[..n], k);
      PutFacts(Group(pairs[..n]), pairs[n].0, pairs[n].1, k);
    }
  }

  /** The groups' keys are the input's keys, each once, in order of first appearance. */
  lemma {:induction false} GroupKeys<K, V>(pairs: seq<(K, V)>)
    ensures KeysOf(Group(pairs)) == Distinct(KeysOf(pairs))
    decreases |pairs|
  {
    if |pairs| > 0 {
      var n := |pairs| - 1;
      GroupKeys(pairs[..n]);
      assert Group(pairs) == Put(Group(pairs[..n]), pairs[n].0, pairs[n].1);
      PutFacts(Group(pairs[..n]), pairs[n].0, pairs[n].1, pairs[n].0);
      var ks := KeysOf(pairs);
      KeysOfPrefix(pairs, n);
      assert ks[n] == pairs[n].0;
      assert Distinct(ks) == if ks[n] in Distinct(ks[..n]) then Distinct(ks[..n]) else Distinct(ks[..n]) + [ks[n]];
    }
  }

  lemma {:induction false} KeysOfPrefix<K, V>(pairs: seq<(K, V)>, n: nat)
    requires n <= |pairs|
    ensures KeysOf(pairs)[..n] == KeysOf(pairs[..n])
  {
  }

  /** A key present in the input gets a non-empty group. */
  lemma {:induction false} ValuesForPresent<K, V>(pairs: seq<(K, V)>, k: K)
    ensures |ValuesFor(pairs, k)| > 0 <==> k in KeysOf(pairs)
    decreases |pairs|
  {
    if |pairs| > 0 {
      var n := |pairs| - 1;
      ValuesForPresent(pairs[..n], k);
      assert KeysOf(pairs) == KeysOf(pairs[..n]) + [pairs[n].0];
    }
  }

  // ---------------------------------------------------------------------------------
  // Response bodies
  // ---------------------------------------------------------------------------------

  /** What a body's `data` holds: nothing, a text, a list, or messages grouped by field. */
  datatype Detail = Null | Text(text: string) | Items(items: seq<string>) | Fields(fields: seq<(string, seq<string>)>)

  /** The body `create_response` builds, without its `current_time` stamp. */
  datatype Response = Response(data: Detail, messageCode: string, message: string, errorCode: int)

  /** `create_response`: the error code defaults to 500 and the data to null. */
  function CreateResponse(message: string, messageCode: string, errorCode: Option<int>, detail: Option<Detail>): (r: Response)
    ensures r.message == message && r.messageCode == messageCode
    ensures errorCode.None? ==> r.errorCode == InternalServerError
    ensures errorCode.Some? ==> r.errorCode == errorCode.value
    ensures detail.None? ==> r.data.Null?
    ensures detail.Some? ==> r.data == detail.value
  {
    Response(detail.GetOr(Null), messageCode, message, errorCode.GetOr(500))
  }

  /** An `APIException` subclass: its class attributes. */
  datatype ExcClass = ExcClass(errorCode: int, messageCode: string, message: string)

  /** `APIException` itself. */
  const ApiBase: ExcClass := ExcClass(500, "INTERNAL_SERVER_ERROR", "Internal server error")

  /** The class of an API error of this model. */
  function ClassOf(e: Error): ExcClass
    requires e.IsApiException()
  {
    ExcClass(e.ErrorCode(), e.MessageCode(), e.Message())
  }

  /** `APIException.__str__` (and `__repr__`): "message_code: message". */
  function Describe(c: ExcClass): (s: string)
    ensures |s| == |c.messageCode| + 2 + |c.message|
    ensures s[..|c.messageCode|] == c.messageCode && s[|c.messageCode|..|c.messageCode| + 2] == ": "
  {
    c.messageCode + ": " + c.message
  }

  /** Reads a description back: the code up to the first colon, the message after ": ". */
  function ParseDescription(s: string): (r: Option<(string, string)>)
    ensures r.Some? ==> ':' !in r.value.0 && s == r.value.0 + ": " + r.value.1
  {
    var at := IndexOf(s, ':');
    if at.None? || at.value + 1 >= |s| || s[at.value + 1] != ' ' then None
    else
      var i := at.value;
      assert ':' !in s[..i] by {
        IndexOfFirst(s, ':');
      }
      assert s == s[..i] + ": " + s[i + 2..];
      Some((s[..i], s[i + 2..]))
  }

  /** Nothing before the position `IndexOf` finds is the key. */
  lemma {:induction false} IndexOfFirst<K>(ks: seq<K>, k: K)
    requires IndexOf(ks, k).Some?
    ensures k !in ks[..IndexOf(ks, k).value]
    decreases |ks|
  {
    if ks[0] != k {
      IndexOfFirst(ks[1..], k);
      assert ks[..IndexOf(ks, k).value] == [ks[0]] + ks[1..][..IndexOf(ks[1..], k).value];
    }
  }

  /** A message code without a colon makes the string form reversible. */
  lemma {:induction false} DescribeRoundTrip(c: ExcClass)
    requires ':' !in c.messageCode
    ensures ParseDescription(Describe(c)) == Some((c.messageCode, c.message))
  {
    var s := Describe(c);
    var n := |c.messageCode|;
    IndexOfAfter(s, ':', n);
    assert s[n + 1] == ' ';
    assert s[..n] == c.messageCode;
    assert s[n + 2..] == c.message;
  }

  /** The first `k` sits at `n` when `ks[n]` is `k` and no earlier element is. */
  lemma {:induction false} IndexOfAfter<K>(ks: seq<K>, k: K, n: nat)
    requires n < |ks| && ks[n] == k && k !in ks[..n]
    ensures IndexOf(ks, k) == Some(n)
    decreases n
  {
    if n > 0 {
      assert ks[0] in ks[..n];
      assert ks[1..][..n - 1] == ks[..n][1..];
      IndexOfAfter(ks[1..], k, n - 1);
    }
  }

  // ---------------------------------------------------------------------------------
  // Handlers
  // ---------------------------------------------------------------------------------

  /** `_default_exception_handler`: any other exception, database errors included. */
  function DefaultResponse(): (r: Response)
    ensures r.errorCode == 500 && r.messageCode == "CONTACT_ADMIN_FOR_SUPPORT" && r.data.Null?
  {
    CreateResponse("Contact admin for support", "CONTACT_ADMIN_FOR_SUPPORT", Some(500), None)
  }

  /** `_authentication_error_handler`. */
  function AuthenticationResponse(): (r: Response)
    ensures r.errorCode == 401 && r.messageCode == "UNAUTHORIZED" && r.data.Null?
  {
    CreateResponse("Unauthorized", "UNAUTHORIZED", Some(401), None)
  }

  /** `_default_http_error`: the HttpError's status, with its text as data. */
  function HttpErrorResponse(status: int, text: string): (r: Response)
    ensures r.errorCode == status && r.messageCode == "HTTP_ERROR" && r.data == Text(text)
  {
    CreateResponse("Http error", "HTTP_ERROR", Some(status), Some(Text(text)))
  }

  /** `_custom_exception_handler`: the exception's own class attributes and detail. */
  function CustomResponse(c: ExcClass, detail: Detail): (r: Response)
    ensures r.errorCode == c.errorCode && r.messageCode == c.messageCode && r.message == c.message && r.data == detail
  {
    CreateResponse(c.message, c.messageCode, Some(c.errorCode), Some(detail))
  }

  /** One entry of a validation error's `errors` list: `loc` and `msg` may be missing. */
  datatype ErrorEntry = ErrorEntry(loc: Option<seq<string>>, msg: Option<string>)

  /** The (field, message) pairs the validation handler keeps: entries with a `msg` and a non-empty `loc`. */
  function FieldMessages(errors: seq<ErrorEntry>): seq<(string, string)>
    decreases |errors|
  {
    if |errors| == 0 then []
    else
      var n := |errors| - 1;
      var e := errors[n];
      FieldMessages(errors[..n]) + (if Kept(e) then [(e.loc.value[|e.loc.value| - 1], e.msg.value)] else [])
  }

  predicate Kept(e: ErrorEntry) {
    e.loc.Some? && e.msg.Some? && |e.loc.value| > 0
  }

  /** Reference: the messages of the kept entries whose last `loc` element is `field`, in order. */
  function MessagesAt(errors: seq<ErrorEntry>, field: string): seq<string>
    decreases |errors|
  {
    if |errors| == 0 then []
    else
      var n := |errors| - 1;
      var e := errors[n];
      MessagesAt(errors[..n], field) + (if Kept(e) && e.loc.value[|e.loc.value| - 1] == field then [e.msg.value] else [])
  }

  /** The body of a validation error. */
  function ValidationResponse(errors: seq<ErrorEntry>): Response {
    CreateResponse("Validation error", "VALIDATION_ERROR", Some(401), Some(Fields(Group(FieldMessages(errors)))))
  }

  /**
   * `_validation_error_handler`: walks the errors, appending each kept message to its
   * field's list; the body is always a 401 "VALIDATION_ERROR".
   */
  method ValidationHandler(errors: seq<ErrorEntry>) returns (r: Response)
    ensures r == ValidationResponse(errors)
    ensures r.errorCode == 401 && r.messageCode == "VALIDATION_ERROR" && r.data.Fields?
  {
    var detail: seq<(string, seq<string>)> := [];
    for i := 0 to |errors|
      invariant detail == Group(FieldMessages(errors[..i]))
    {
      assert errors[..i + 1][..i] == errors[..i];
      var e := errors[i];
      var before := FieldMessages(errors[..i]);
      if e.loc.Some? && e.msg.Some? && |e.loc.value| > 0 {
        var field := e.loc.value[|e.loc.value| - 1];
        detail := Put(detail, field, e.msg.value);
        assert FieldMessages(errors[..i + 1]) == before + [(field, e.msg.value)];
        assert (before + [(field, e.msg.value)])[..|before|] == before;
      } else {
        assert FieldMessages(errors[..i + 1]) == before + [];
        assert before + [] == before;
      }
    }
    assert errors[..|errors|] == errors;
    r := CreateResponse("Validation error", "VALIDATION_ERROR", Some(401), Some(Fields(detail)));
  }

  lemma {:induction false} FieldMessagesAt(errors: seq<ErrorEntry>, field: string)
    ensures ValuesFor(FieldMessages(errors), field) == MessagesAt(errors, field)
    decreases |errors|
  {
    if |errors| > 0 {
      var n := |errors| - 1;
      FieldMessagesAt(errors[..n], field);
      var extra := if Kept(errors[n]) then [(errors[n].loc.value[|errors[n].loc.value| - 1], errors[n].msg.value)] else [];
      ValuesForAppend(FieldMessages(errors[..n]), extra, field);
    }
  }

  lemma {:induction false} ValuesForAppend<K, V>(front: seq<(K, V)>, extra: seq<(K, V)>, k: K)
    requires |extra| <= 1
    ensures ValuesFor(front + extra, k) == ValuesFor(front, k) + ValuesFor(extra, k)
  {
    if |extra| == 1 {
      assert (front + extra)[..|front|] == front;
      assert extra[..0] == [];
    } else {
      assert front + extra == front;
    }
  }

  /**
   * The validation body lists, under each field, exactly the messages of the kept
   * entries ending at that field, in input order; every other entry is dropped, and
   * the fields appear once each, in the order they first occur.
   */
  lemma {:induction false} ValidationGroupsByField(errors: seq<ErrorEntry>, field: string)
    ensures Lookup(ValidationResponse(errors).data.fields, field) == MessagesAt(errors, field)
    ensures KeysOf(ValidationResponse(errors).data.fields) == Distinct(KeysOf(FieldMessages(errors)))
    ensures NoDuplicates(KeysOf(ValidationResponse(errors).data.fields))
  {
    GroupLookup(FieldMessages(errors), field);
    FieldMessagesAt(errors, field);
    GroupKeys(FieldMessages(errors));
    DistinctFacts(KeysOf(FieldMessages(errors)));
  }

  /** An exception as it reaches the handlers registered by `get_handlers`. */
  datatype Raised =
    | Api(cls: ExcClass, detail: Detail)
    | Validation(errors: seq<ErrorEntry>)
    | Authentication
    | Http(status: int, text: string)
    | Database
    | Other

  /** `get_handlers`: the most specific registered class decides the handler. */
  function Handle(x: Raised): (r: Response)
    ensures x.Api? ==> r == CustomResponse(x.cls, x.detail)
    ensures x.Database? || x.Other? ==> r == DefaultResponse()
  {
    match x
    case Api(c, d) => CustomResponse(c, d)
    case Validation(errors) => ValidationResponse(errors)
    case Authentication => AuthenticationResponse()
    case Http(status, text) => HttpErrorResponse(status, text)
    case Database => DefaultResponse()
    case Other => DefaultResponse()
  }

  /**
   * How an error of this model reaches a client: an API exception, raised as a class,
   * carries an empty list as detail; an HttpError goes to the HTTP handler; a database
   * IntegrityError and every other Python exception to the default handler.
   */
  function RaisedOf(e: Error): Raised {
    if e.IsApiException() then Api(ClassOf(e), Items([]))
    else if e.HttpError? then Http(e.status, e.detail)
    else if e.IntegrityError? then Database
    else Other
  }

  /**
   * Every error of this model gets the status its class declares; an HttpError keeps
   * its status; anything else is a 500 that asks the client to contact an admin.
   */
  lemma {:induction false} ResponseStatus(e: Error)
    ensures e.IsApiException() ==> Handle(RaisedOf(e)).errorCode == e.ErrorCode() && Handle(RaisedOf(e)).messageCode == e.MessageCode()
    ensures e.HttpError? ==> Handle(RaisedOf(e)).errorCode == e.status
    ensures !e.IsApiException() && !e.HttpError? ==>
      Handle(RaisedOf(e)).errorCode == 500 && Handle(RaisedOf(e)).messageCode == "CONTACT_ADMIN_FOR_SUPPORT"
    ensures e.IsApiException() ==> Handle(RaisedOf(e)).errorCode != 200
  {
  }

  // ---------------------------------------------------------------------------------
  // Error documentation
  // ---------------------------------------------------------------------------------

  /** The schema generated for one exception class: its message and message code as literals. */
  datatype ExcSchema = ExcSchema(message: string, messageCode: string)

  /** A documented response: the success schema, or the union of the generated schemas (one schema alone when single). */
  datatype Doc = Success | OneOf(schemas: seq<ExcSchema>)

  const Ok200: int := 200

  function StatusSchemas(excs: seq<ExcClass>): (pairs: seq<(int, ExcSchema)>)
    ensures |pairs| == |excs|
    ensures forall i :: 0 <= i < |excs| ==> pairs[i] == (excs[i].errorCode, ExcSchema(excs[i].message, excs[i].messageCode))
  {
    seq(|excs|, i requires 0 <= i < |excs| => (excs[i].errorCode, ExcSchema(excs[i].message, excs[i].messageCode)))
  }

  /** The documentation map built from the grouped schemas; a group under 200 overrides the success entry. */
  function DocsOf(grouped: seq<(int, seq<ExcSchema>)>): map<int, Doc> {
    map c | c in KeysOf(grouped) + [Ok200] :: if c in KeysOf(grouped) then OneOf(Lookup(grouped, c)) else Success
  }

  /**
   * `generate_exception_response`: groups the exceptions' schemas by status, in order,
   * and documents 200 as the success schema and each status as its group.
   */
  method GenerateExceptionResponse(excs: seq<ExcClass>) returns (docs: map<int, Doc>)
    ensures docs == DocsOf(Group(StatusSchemas(excs)))
  {
    var grouped: seq<(int, seq<ExcSchema>)> := [];
    for i := 0 to |excs|
      invariant grouped == Group(StatusSchemas(excs)[..i])
    {
      assert StatusSchemas(excs)[..i + 1][..i] == StatusSchemas(excs)[..i];
      var exc := excs[i];
      grouped := Put(grouped, exc.errorCode, ExcSchema(exc.message, exc.messageCode));
    }
    assert StatusSchemas(excs)[..|excs|] == StatusSchemas(excs);
    docs := DocsOf(grouped);
  }

  /**
   * The documentation has a key for 200 and one for each distinct status, no other;
   * 200 documents success unless some exception declares 200; each status lists the
   * schemas of its exceptions, in order, and at least one.
   */
  lemma {:induction false} DocsByStatus(excs: seq<ExcClass>, c: int)
    ensures var docs := DocsOf(Group(StatusSchemas(excs)));
      && (c in docs <==> c == 200 || exists i :: 0 <= i < |excs| && excs[i].errorCode == c)
      && ((forall i :: 0 <= i < |excs| ==> excs[i].errorCode != 200) ==> docs[200] == Success)
      && ((exists i :: 0 <= i < |excs| && excs[i].errorCode == c) ==>
            docs[c] == OneOf(ValuesFor(StatusSchemas(excs), c)) && |docs[c].schemas| > 0)
  {
    var pairs := StatusSchemas(excs);
    var grouped := Group(pairs);
    GroupKeys(pairs);
    DistinctFacts(KeysOf(pairs));
    GroupLookup(pairs, c);
    ValuesForPresent(pairs, c);
    assert forall k :: k in KeysOf(grouped) <==> exists i :: 0 <= i < |excs| && excs[i].errorCode == k by {
      forall k ensures k in KeysOf(pairs) <==> exists i :: 0 <= i < |excs| && excs[i].errorCode == k {
        if k in KeysOf(pairs) {
          var i :| 0 <= i < |pairs| && KeysOf(pairs)[i] == k;
          assert excs[i].errorCode == k;
        }
        if exists i :: 0 <= i < |excs| && excs[i].errorCode == k {
          var i :| 0 <= i < |excs| && excs[i].errorCode == k;
          assert KeysOf(pairs)[i] == k;
        }
      }
    }
  }

  /** The documentation of this model's errors never touches the success entry. */
  lemma {:induction false} ModelErrorsKeepSuccess(errs: seq<Error>)
    requires forall i :: 0 <= i < |errs| ==> errs[i].IsApiException()
    ensures DocsOf(Group(StatusSchemas(seq(|errs|, i requires 0 <= i < |errs| && errs[i].IsApiException() => ClassOf(errs[i])))))[200] == Success
  {
    var excs := seq(|errs|, i requires 0 <= i < |errs| && errs[i].IsApiException() => ClassOf(errs[i]));
    forall i | 0 <= i < |excs| ensures excs[i].errorCode != 200 {
      assert excs[i] == ClassOf(errs[i]);
    }
    DocsByStatus(excs, 200);
  }
}
