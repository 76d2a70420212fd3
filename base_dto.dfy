/**
 * The DTO base class: `validate` turns the validator's violation list into a
 * map from field path to the ordered messages for that path, and
 * `fromRequest` overlays request data on a DTO's default field values.
 */
module BaseDto {
  import opened Wrappers
  import opened JsText
  import opened JsObject
  import opened SchemaRules

  /** The grouped errors: a plain object from joined path to messages. */
  type Groups = Props<seq<string>>

  function SegmentText(s: PathSegment): string {
    match s
    case KeySegment(k) => k
    case IndexSegment(i) => IntToString(i)
  }

  /** `path.join('.')` */
  function JoinPath(path: seq<PathSegment>): (s: string)
    ensures path == [] ==> s == ""
    ensures |path| == 1 ==> s == SegmentText(path[0])
  {
    if path == [] then ""
    else if |path| == 1 then SegmentText(path[0])
    else SegmentText(path[0]) + "." + JoinPath(path[1..])
  }

  /** Joining one more segment appends a dot and that segment's text. */
  lemma {:induction false} JoinPathAppend(path: seq<PathSegment>, last: PathSegment)
    requires path != []
    ensures JoinPath(path + [last]) == JoinPath(path) + "." + SegmentText(last)
  {
    var p := path + [last];
    assert p[0] == path[0] && p[1..] == path[1..] + [last];
    if |path| == 1 {
      assert p[1..] == [last];
    } else {
      JoinPathAppend(path[1..], last);
      assert JoinPath(p) == SegmentText(path[0]) + "." + JoinPath(path[1..] + [last]);
    }
  }

  /** Joined paths can collide: a key containing a dot is filed with the nested path it spells. */
  lemma JoinPathCollides()
    ensures JoinPath([KeySegment("a.b")]) == JoinPath([KeySegment("a"), KeySegment("b")])
  {
    assert [KeySegment("a"), KeySegment("b")][1..] == [KeySegment("b")];
  }

  function DetailKey(d: Detail): string {
    JoinPath(d.path)
  }

  /** The messages of the details filed under key k, in detail order. */
  function MessagesFor(ds: seq<Detail>, k: string): seq<string> {
    if ds == [] then []
    else MessagesFor(ds[..|ds| - 1], k) + (if DetailKey(ds[|ds| - 1]) == k then [ds[|ds| - 1].message] else [])
  }

  /** The distinct keys of the details, in order of first appearance. */
  function KeyOrder(ds: seq<Detail>): seq<string> {
    if ds == [] then []
    else
      var earlier := KeyOrder(ds[..|ds| - 1]);
      var k := DetailKey(ds[|ds| - 1]);
      if k in earlier then earlier else earlier + [k]
  }

  function TotalMessages(g: Groups): nat {
    if g == [] then 0 else |g[0].1| + TotalMessages(g[1..])
  }

  /**
   * g groups ds: one entry per distinct key, in order of first appearance,
   * each holding exactly the messages filed under that key in detail order,
   * and as many messages in all as there are details.
   */
  ghost predicate GroupsOf(g: Groups, ds: seq<Detail>) {
    && UniqueKeys(g)
    && Keys(g) == KeyOrder(ds)
    && (forall k :: Get(g, k) == if k in KeyOrder(ds) then Some(MessagesFor(ds, k)) else None)
    && TotalMessages(g) == |ds|
  }

  /** The key of every detail, in detail order. */
  function DetailKeys(ds: seq<Detail>): (ks: seq<string>)
    ensures |ks| == |ds| && forall i :: 0 <= i < |ds| ==> ks[i] == DetailKey(ds[i])
  {
    if ds == [] then [] else DetailKeys(ds[..|ds| - 1]) + [DetailKey(ds[|ds| - 1])]
  }

  /** A key is grouped exactly when some message is filed under it, exactly when some detail carries it. */
  lemma KeyOrderMeaning(ds: seq<Detail>, k: string)
    ensures k in KeyOrder(ds) <==> MessagesFor(ds, k) != []
    ensures k in KeyOrder(ds) <==> k in DetailKeys(ds)
  {
    KeyOrderMessages(ds, k);
    KeyOrderKeys(ds, k);
  }

  lemma KeyOrderLast(ds: seq<Detail>, k: string)
    requires ds != []
    ensures k in KeyOrder(ds) <==> k in KeyOrder(ds[..|ds| - 1]) || k == DetailKey(ds[|ds| - 1])
  {
  }

  lemma {:induction false} KeyOrderMessages(ds: seq<Detail>, k: string)
    ensures k in KeyOrder(ds) <==> MessagesFor(ds, k) != []
  {
    if ds != [] {
      KeyOrderLast(ds, k);
      KeyOrderMessages(ds[..|ds| - 1], k);
    }
  }

  lemma {:induction false} KeyOrderKeys(ds: seq<Detail>, k: string)
    ensures k in KeyOrder(ds) <==> k in DetailKeys(ds)
  {
    if ds != [] {
      KeyOrderLast(ds, k);
      KeyOrderKeys(ds[..|ds| - 1], k);
    }
  }

  lemma {:induction false} TotalPut(g: Groups, k: string, v: seq<string>)
    ensures TotalMessages(Put(g, k, v)) == TotalMessages(g) - (if Get(g, k).Some? then |Get(g, k).value| else 0) + |v|
  {
    if g != [] && g[0].0 != k {
      TotalPut(g[1..], k, v);
    } else if g != [] {
      assert (Put(g, k, v))[1..] == g[1..];
    }
  }

  /**
   * The names a plain `{}` inherits from `Object.prototype`. Reading one that
   * is not an own property yields the inherited member, which is truthy and
   * has no `push`.
   */
  const InheritedNames: set<string> := {
    "constructor", "hasOwnProperty", "isPrototypeOf", "propertyIsEnumerable", "toString",
    "toLocaleString", "valueOf", "__proto__", "__defineGetter__", "__defineSetter__",
    "__lookupGetter__", "__lookupSetter__"}

  /** `acc[key]` finds an inherited member rather than an own property or `undefined`. */
  predicate ReadsInherited(acc: Groups, key: string) {
    key !in Keys(acc) && key in InheritedNames
  }

  /** `acc[key] = acc[key] || []; acc[key].push(message)` as it acts on own properties. */
  function FileOwn(acc: Groups, key: string, message: string): Groups {
    var acc1 := Put(acc, key, Get(acc, key).GetOr([]));
    Put(acc1, key, Get(acc1, key).GetOr([]) + [message])
  }

  /**
   * `acc[key] = acc[key] || []` followed by `acc[key].push(message)` on a
   * plain `{}`: None when `acc[key]` is an inherited member, on which the push
   * throws a TypeError; otherwise the message is filed under its own key.
   */
  function FileMessage(acc: Groups, key: string, message: string): (r: Option<Groups>)
    ensures r.None? <==> key !in Keys(acc) && key in InheritedNames
    ensures r.Some? ==> r.value == FileOwn(acc, key, message)
  {
    if ReadsInherited(acc, key) then None else Some(FileOwn(acc, key, message))
  }

  lemma FileOwnGet(acc: Groups, key: string, message: string, k: string)
    ensures Get(FileOwn(acc, key, message), k) ==
      if k == key then Some(Get(acc, key).GetOr([]) + [message]) else Get(acc, k)
  {
    var acc1 := Put(acc, key, Get(acc, key).GetOr([]));
    PutGet(acc, key, Get(acc, key).GetOr([]), k);
    PutGet(acc, key, Get(acc, key).GetOr([]), key);
    PutGet(acc1, key, Get(acc1, key).GetOr([]) + [message], k);
  }

  lemma FileOwnShape(acc: Groups, key: string, message: string)
    ensures UniqueKeys(acc) ==> UniqueKeys(FileOwn(acc, key, message))
    ensures Keys(FileOwn(acc, key, message)) == if key in Keys(acc) then Keys(acc) else Keys(acc) + [key]
    ensures TotalMessages(FileOwn(acc, key, message)) == TotalMessages(acc) + 1
  {
    var acc1 := Put(acc, key, Get(acc, key).GetOr([]));
    PutGet(acc, key, Get(acc, key).GetOr([]), key);
    if UniqueKeys(acc) {
      PutUnique(acc, key, Get(acc, key).GetOr([]));
      PutUnique(acc1, key, Get(acc1, key).GetOr([]) + [message]);
    }
    PutKeys(acc, key, Get(acc, key).GetOr([]));
    PutKeys(acc1, key, Get(acc1, key).GetOr([]) + [message]);
    TotalPut(acc, key, Get(acc, key).GetOr([]));
    TotalPut(acc1, key, Get(acc1, key).GetOr([]) + [message]);
  }

  lemma AppendOne(ds: seq<Detail>, d: Detail, k: string)
    ensures MessagesFor(ds + [d], k) == MessagesFor(ds, k) + (if DetailKey(d) == k then [d.message] else [])
    ensures k in KeyOrder(ds + [d]) <==> k in KeyOrder(ds) || k == DetailKey(d)
  {
    var ds' := ds + [d];
    assert ds'[..|ds'| - 1] == ds;
  }

  lemma GroupStepAt(acc: Groups, ds: seq<Detail>, d: Detail, k: string)
    requires Get(acc, DetailKey(d)) == if DetailKey(d) in KeyOrder(ds) then Some(MessagesFor(ds, DetailKey(d))) else None
    requires Get(acc, k) == if k in KeyOrder(ds) then Some(MessagesFor(ds, k)) else None
    ensures Get(FileOwn(acc, DetailKey(d), d.message), k) ==
      if k in KeyOrder(ds + [d]) then Some(MessagesFor(ds + [d], k)) else None
  {
    var key := DetailKey(d);
    FileOwnGet(acc, key, d.message, k);
    AppendOne(ds, d, k);
    if k == key {
      KeyOrderMeaning(ds, key);
      assert Get(acc, key).GetOr([]) == MessagesFor(ds, key);
      assert Get(FileOwn(acc, DetailKey(d), d.message), k) == Some(MessagesFor(ds, k) + [d.message]);
      assert k in KeyOrder(ds + [d]);
      assert MessagesFor(ds + [d], k) == MessagesFor(ds, k) + [d.message];
    } else {
      assert Get(FileOwn(acc, DetailKey(d), d.message), k) == Get(acc, k);
      assert k in KeyOrder(ds + [d]) <==> k in KeyOrder(ds);
      assert MessagesFor(ds + [d], k) == MessagesFor(ds, k);
    }
  }

  /** Filing one more detail under its own key keeps the grouping exact. */
  lemma GroupOwnStep(acc: Groups, ds: seq<Detail>, d: Detail)
    requires GroupsOf(acc, ds)
    ensures GroupsOf(FileOwn(acc, DetailKey(d), d.message), ds + [d])
  {
    var key := DetailKey(d);
    var ds' := ds + [d];
    assert ds'[..|ds'| - 1] == ds;
    assert KeyOrder(ds') == if key in KeyOrder(ds) then KeyOrder(ds) else KeyOrder(ds) + [key];
    assert Get(acc, key) == if key in KeyOrder(ds) then Some(MessagesFor(ds, key)) else None;
    FileOwnShape(acc, key, d.message);
    forall k ensures Get(FileOwn(acc, key, d.message), k) == if k in KeyOrder(ds') then Some(MessagesFor(ds', k)) else None {
      GroupStepAt(acc, ds, d, k);
    }
  }

  /**
   * One step of the fold: it throws exactly for an inherited name not grouped
   * yet, and otherwise keeps the grouping exact.
   */
  lemma GroupStep(acc: Groups, ds: seq<Detail>, d: Detail)
    requires GroupsOf(acc, ds)
    ensures FileMessage(acc, DetailKey(d), d.message).None? <==>
      DetailKey(d) in InheritedNames && DetailKey(d) !in KeyOrder(ds)
    ensures FileMessage(acc, DetailKey(d), d.message).Some? ==>
      GroupsOf(FileMessage(acc, DetailKey(d), d.message).value, ds + [d])
  {
    GroupOwnStep(acc, ds, d);
  }

  /**
   * The grouping `validate` evidently intends: every detail filed under its
   * own key, whatever its name, as a prototype-free accumulator
   * (`Object.create(null)`) would give.
   */
  function GroupedOwn(ds: seq<Detail>): (g: Groups)
    ensures GroupsOf(g, ds)
    decreases |ds|
  {
    if ds == [] then []
    else
      var init := ds[..|ds| - 1];
      var d := ds[|ds| - 1];
      GroupOwnStep(GroupedOwn(init), init, d);
      assert init + [d] == ds;
      FileOwn(GroupedOwn(init), DetailKey(d), d.message)
  }

  /** No detail's key is a name `{}` inherits. */
  predicate NoInheritedKey(ds: seq<Detail>) {
    forall i :: 0 <= i < |ds| ==> DetailKey(ds[i]) !in InheritedNames
  }

  /** One detail filed under an inherited name is enough to make the grouping throw. */
  lemma InheritedDetail(ds: seq<Detail>, d: Detail)
    requires d in ds && DetailKey(d) in InheritedNames
    ensures !NoInheritedKey(ds)
  {
    var i :| 0 <= i < |ds| && ds[i] == d;
  }

  /** An undeclared key named like an inherited member is reported under that very name. */
  lemma UnknownInheritedKey(schema: ObjectSchema, obj: Props<Value>, isEmail: EmailCheck, k: string)
    requires k in Keys(obj) && k !in DeclaredKeys(schema.fields) && k in InheritedNames
    ensures !NoInheritedKey(ValidateObject(schema, obj, isEmail))
  {
    UnknownKeyError(schema, obj, isEmail, k);
    assert DetailKey(UnknownError(schema, k)) == k;
    InheritedDetail(ValidateObject(schema, obj, isEmail), UnknownError(schema, k));
  }

  /** A step of the fold after steps that did not throw: it throws exactly on an inherited name. */
  lemma GroupFold(acc: Groups, ds: seq<Detail>, d: Detail)
    requires GroupsOf(acc, ds) && NoInheritedKey(ds)
    ensures FileMessage(acc, DetailKey(d), d.message).None? <==> DetailKey(d) in InheritedNames
    ensures FileMessage(acc, DetailKey(d), d.message).Some? ==>
      GroupsOf(FileMessage(acc, DetailKey(d), d.message).value, ds + [d]) && NoInheritedKey(ds + [d])
  {
    GroupStep(acc, ds, d);
    var key := DetailKey(d);
    if key in InheritedNames {
      KeyOrderMeaning(ds, key);
      assert key !in DetailKeys(ds);
    }
    var ds' := ds + [d];
    assert forall j :: 0 <= j < |ds| ==> ds'[j] == ds[j];
  }

  /**
   * The `reduce` in `validate`, as the loop it is: it groups every detail,
   * or throws at the first detail whose key is an inherited name.
   */
  method GroupDetails(details: seq<Detail>) returns (r: Result<Groups, string>)
    ensures r.Ok? <==> NoInheritedKey(details)
    ensures r.Ok? ==> GroupsOf(r.value, details)
    ensures r.Err? ==> r.error in InheritedNames
    ensures r.Err? ==> exists i :: 0 <= i < |details| && DetailKey(details[i]) == r.error && NoInheritedKey(details[..i])
  {
    var acc: Groups := [];
    var i := 0;
    while i < |details|
      invariant 0 <= i <= |details|
      invariant GroupsOf(acc, details[..i]) && NoInheritedKey(details[..i])
    {
      var d := details[i];
      GroupFold(acc, details[..i], d);
      var filed := FileMessage(acc, DetailKey(d), d.message);
      if filed.None? {
        assert !NoInheritedKey(details);
        return Err(DetailKey(d));
      }
      assert details[..i + 1] == details[..i] + [d];
      acc := filed.value;
      i := i + 1;
    }
    assert details[..i] == details;
    r := Ok(acc);
  }

  /**
   * How `schema.validateAsync(dto, { abortEarly: false })` settles: it
   * resolves, it rejects with a validation error carrying its details, or it
   * rejects with some other error.
   */
  datatype Outcome<E> = Passed | Rejected(details: seq<Detail>) | Threw(error: E)

  /** What `validate` throws: the error it re-throws, or the TypeError of a push on an inherited member. */
  datatype Thrown<E> = Rethrown(error: E) | PushFailed(key: string)

  /**
   * `validate`: null when the schema passed, the grouped details on a
   * validation error, any other error re-thrown; the grouping itself throws
   * when a detail's key is an inherited name.
   */
  method Validate<E>(outcome: Outcome<E>) returns (r: Result<Option<Groups>, Thrown<E>>)
    ensures outcome.Passed? <==> r == Ok(None)
    ensures outcome.Threw? ==> r == Err(Rethrown(outcome.error))
    ensures outcome.Rejected? && NoInheritedKey(outcome.details) ==>
      r.Ok? && r.value.Some? && GroupsOf(r.value.value, outcome.details)
    ensures outcome.Rejected? && !NoInheritedKey(outcome.details) ==>
      r.Err? && r.error.PushFailed? && r.error.key in InheritedNames
  {
    match outcome
    case Passed =>
      r := Ok(None);
    case Rejected(details) =>
      var grouped := GroupDetails(details);
      if grouped.Err? {
        r := Err(PushFailed(grouped.error));
      } else {
        r := Ok(Some(grouped.value));
      }
    case Threw(e) =>
      r := Err(Rethrown(e));
  }

  /** The validator's settlement: a validation error exactly when there are violations. */
  function RunSchema(schema: ObjectSchema, dto: Props<Value>, isEmail: EmailCheck): (o: Outcome<string>)
    ensures o.Passed? <==> ValidateObject(schema, dto, isEmail) == []
    ensures o.Rejected? ==> o.details == ValidateObject(schema, dto, isEmail)
    ensures !o.Threw?
  {
    var ds := ValidateObject(schema, dto, isEmail);
    if ds == [] then Passed else Rejected(ds)
  }

  /**
   * `DtoClass.validate(dto)` with the class's schema: null exactly when there
   * is no violation; otherwise every violation grouped under its path, or a
   * thrown TypeError when a violation's path is an inherited name.
   */
  method ValidateDto(schema: ObjectSchema, dto: Props<Value>, isEmail: EmailCheck) returns (r: Result<Option<Groups>, Thrown<string>>)
    ensures r == Ok(None) <==> ValidateObject(schema, dto, isEmail) == []
    ensures NoInheritedKey(ValidateObject(schema, dto, isEmail)) ==> r.Ok?
    ensures r.Ok? && r.value.Some? ==> GroupsOf(r.value.value, ValidateObject(schema, dto, isEmail))
    ensures !NoInheritedKey(ValidateObject(schema, dto, isEmail)) ==> r.Err? && r.error.PushFailed? && r.error.key in InheritedNames
  {
    r := Validate(RunSchema(schema, dto, isEmail));
  }

  /**
   * `fromRequest`: a fresh instance holds the class's default field values;
   * `Object.assign` then writes every supplied property over it.
   */
  method FromRequest(defaults: Props<Value>, data: Props<Value>) returns (dto: Props<Value>)
    requires UniqueKeys(defaults) && UniqueKeys(data)
    ensures dto == Assigned(defaults, data)
    ensures UniqueKeys(dto)
    ensures forall k :: k in Keys(data) ==> Get(dto, k) == Get(data, k)
    ensures forall k :: k !in Keys(data) ==> Get(dto, k) == Get(defaults, k)
    ensures Keys(dto) == Keys(defaults) + NewKeys(defaults, data)
  {
    dto := Assign(defaults, data);
  }
}
