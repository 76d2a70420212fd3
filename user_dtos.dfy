/**
 * The rule tables of the three user DTOs (the create body, the update body
 * and the `:id` route parameter), the values a freshly built DTO holds, and
 * what the validator reports for each of them.
 */
module UserDtos {
  import opened Wrappers
  import opened JsText
  import opened JsObject
  import opened SchemaRules
  import opened BaseDto

  // ----- CreateUserDto -----

  const CreateName: FieldRule := FieldRule("name", StringType, true, [MinLength(2)],
    map[StringMin := "Name must be at least 2 characters long",
     StringEmpty := "Name is required",
     AnyRequired := "Name is required"])

  const CreateEmail: FieldRule := FieldRule("email", StringType, true, [Email],
    map[StringEmail := "Invalid email format",
     StringEmpty := "Email is required",
     AnyRequired := "Email is required"])

  const CreatePassword: FieldRule := FieldRule("password", StringType, true, [MinLength(6)],
    map[StringMin := "Password must be at least 6 characters long",
     StringEmpty := "Password is required",
     AnyRequired := "Password is required"])

  const CreateUserSchema: ObjectSchema := ObjectSchema([CreateName, CreateEmail, CreatePassword], None, map[])

  /** A new CreateUserDto: every field starts as the empty string. */
  const CreateUserDefaults: Props<Value> := [("name", Str("")), ("email", Str("")), ("password", Str(""))]

  // ----- UpdateUserDto -----

  const UpdateName: FieldRule := FieldRule("name", StringType, false, [MinLength(2)],
    map[StringMin := "Name must be at least 2 characters long"])

  const UpdateEmail: FieldRule := FieldRule("email", StringType, false, [Email],
    map[StringEmail := "Invalid email format"])

  const UpdatePassword: FieldRule := FieldRule("password", StringType, false, [MinLength(6)],
    map[StringMin := "Password must be at least 6 characters long"])

  const UpdateUserSchema: ObjectSchema := ObjectSchema([UpdateName, UpdateEmail, UpdatePassword], Some(1),
    map[ObjectMin := "At least one field must be provided for update"])

  /** A new UpdateUserDto has no own properties: its fields are only declared. */
  const UpdateUserDefaults: Props<Value> := []

  // ----- UserParamsDto -----

  const ParamsId: FieldRule := FieldRule("id", NumberType, true, [Integer, MinValue(1)],
    map[NumberBase := "ID must be an integer",
     NumberInteger := "ID must be an integer",
     NumberMin := "ID must be greater than 0",
     AnyRequired := "ID is required"])

  const UserParamsSchema: ObjectSchema := ObjectSchema([ParamsId], None, map[])

  /** A new UserParamsDto holds id 0. */
  const UserParamsDefaults: Props<Value> := [("id", Num(0.0))]

  /** `fromRequest` for each DTO: the defaults overlaid with the request data. */
  function CreateDto(data: Props<Value>): Props<Value> {
    Assigned(CreateUserDefaults, data)
  }

  function UpdateDto(data: Props<Value>): Props<Value> {
    Assigned(UpdateUserDefaults, data)
  }

  function ParamsDto(data: Props<Value>): Props<Value> {
    Assigned(UserParamsDefaults, data)
  }

  const UserKeys: seq<string> := ["name", "email", "password"]

  /** The presence rules: create fields are all required, update fields all optional, and an update needs a key. */
  lemma PresenceRules()
    ensures forall i :: 0 <= i < |CreateUserSchema.fields| ==> CreateUserSchema.fields[i].required
    ensures forall i :: 0 <= i < |UpdateUserSchema.fields| ==> !UpdateUserSchema.fields[i].required
    ensures UpdateUserSchema.minKeys == Some(1) && CreateUserSchema.minKeys.None?
    ensures DeclaredKeys(CreateUserSchema.fields) == DeclaredKeys(UpdateUserSchema.fields) == UserKeys
  {
    assert DeclaredKeys(CreateUserSchema.fields)[0] == "name";
  }

  // ----- what a value of each field yields -----

  /** A string of at least n UTF-16 units. */
  predicate LongEnough(v: Option<Value>, n: nat) {
    v.Some? && v.value.Str? && Utf16Length(v.value.text) >= n
  }

  /** A non-empty string that passes the email check. */
  predicate GoodEmail(v: Option<Value>, isEmail: EmailCheck) {
    v.Some? && v.value.Str? && v.value.text != "" && isEmail(v.value.text)
  }

  lemma CreateNameDetails(v: Option<Value>, isEmail: EmailCheck)
    ensures var ds := FieldDetails(CreateUserSchema, CreateName, v, isEmail);
      && (v.None? ==> ds == [Detail("Name is required", [KeySegment("name")], AnyRequired)])
      && (v == Some(Str("")) ==> ds == [Detail("Name is required", [KeySegment("name")], StringEmpty)])
      && (v.Some? && v.value.Str? && v.value.text != "" && Utf16Length(v.value.text) < 2 ==>
            ds == [Detail("Name must be at least 2 characters long", [KeySegment("name")], StringMin)])
      && (v.Some? && !v.value.Str? ==> ds == [Detail(Quoted("name") + " must be a string", [KeySegment("name")], StringBase)])
      && (ds == [] <==> LongEnough(v, 2))
  {
    if v.Some? && v.value.Str? && v.value.text != "" {
      SingleStringRule(CreateUserSchema, CreateName, v.value, isEmail);
    }
  }

  lemma CreateEmailDetails(v: Option<Value>, isEmail: EmailCheck)
    ensures var ds := FieldDetails(CreateUserSchema, CreateEmail, v, isEmail);
      && (v.None? ==> ds == [Detail("Email is required", [KeySegment("email")], AnyRequired)])
      && (v == Some(Str("")) ==> ds == [Detail("Email is required", [KeySegment("email")], StringEmpty)])
      && (v.Some? && v.value.Str? && v.value.text != "" && !isEmail(v.value.text) ==>
            ds == [Detail("Invalid email format", [KeySegment("email")], StringEmail)])
      && (v.Some? && !v.value.Str? ==> ds == [Detail(Quoted("email") + " must be a string", [KeySegment("email")], StringBase)])
      && (ds == [] <==> GoodEmail(v, isEmail))
  {
    if v.Some? && v.value.Str? && v.value.text != "" {
      SingleStringRule(CreateUserSchema, CreateEmail, v.value, isEmail);
    }
  }

  lemma CreatePasswordDetails(v: Option<Value>, isEmail: EmailCheck)
    ensures var ds := FieldDetails(CreateUserSchema, CreatePassword, v, isEmail);
      && (v.None? ==> ds == [Detail("Password is required", [KeySegment("password")], AnyRequired)])
      && (v == Some(Str("")) ==> ds == [Detail("Password is required", [KeySegment("password")], StringEmpty)])
      && (v.Some? && v.value.Str? && v.value.text != "" && Utf16Length(v.value.text) < 6 ==>
            ds == [Detail("Password must be at least 6 characters long", [KeySegment("password")], StringMin)])
      && (v.Some? && !v.value.Str? ==> ds == [Detail(Quoted("password") + " must be a string", [KeySegment("password")], StringBase)])
      && (ds == [] <==> LongEnough(v, 6))
  {
    if v.Some? && v.value.Str? && v.value.text != "" {
      SingleStringRule(CreateUserSchema, CreatePassword, v.value, isEmail);
    }
  }

  lemma UpdateNameDetails(v: Option<Value>, isEmail: EmailCheck)
    ensures var ds := FieldDetails(UpdateUserSchema, UpdateName, v, isEmail);
      && (v.None? ==> ds == [])
      && (v == Some(Str("")) ==> ds == [Detail(Quoted("name") + " is not allowed to be empty", [KeySegment("name")], StringEmpty)])
      && (v.Some? && v.value.Str? && v.value.text != "" && Utf16Length(v.value.text) < 2 ==>
            ds == [Detail("Name must be at least 2 characters long", [KeySegment("name")], StringMin)])
      && (ds == [] <==> v.None? || LongEnough(v, 2))
  {
    if v.Some? && v.value.Str? && v.value.text != "" {
      SingleStringRule(UpdateUserSchema, UpdateName, v.value, isEmail);
    }
  }

  lemma UpdateEmailDetails(v: Option<Value>, isEmail: EmailCheck)
    ensures var ds := FieldDetails(UpdateUserSchema, UpdateEmail, v, isEmail);
      && (v.None? ==> ds == [])
      && (v == Some(Str("")) ==> ds == [Detail(Quoted("email") + " is not allowed to be empty", [KeySegment("email")], StringEmpty)])
      && (v.Some? && v.value.Str? && v.value.text != "" && !isEmail(v.value.text) ==>
            ds == [Detail("Invalid email format", [KeySegment("email")], StringEmail)])
      && (ds == [] <==> v.None? || GoodEmail(v, isEmail))
  {
    if v.Some? && v.value.Str? && v.value.text != "" {
      SingleStringRule(UpdateUserSchema, UpdateEmail, v.value, isEmail);
    }
  }

  lemma UpdatePasswordDetails(v: Option<Value>, isEmail: EmailCheck)
    ensures var ds := FieldDetails(UpdateUserSchema, UpdatePassword, v, isEmail);
      && (v.None? ==> ds == [])
      && (v == Some(Str("")) ==> ds == [Detail(Quoted("password") + " is not allowed to be empty", [KeySegment("password")], StringEmpty)])
      && (v.Some? && v.value.Str? && v.value.text != "" && Utf16Length(v.value.text) < 6 ==>
            ds == [Detail("Password must be at least 6 characters long", [KeySegment("password")], StringMin)])
      && (ds == [] <==> v.None? || LongEnough(v, 6))
  {
    if v.Some? && v.value.Str? && v.value.text != "" {
      SingleStringRule(UpdateUserSchema, UpdatePassword, v.value, isEmail);
    }
  }

  /** A whole number of at least 1. */
  predicate PositiveInteger(v: Option<Value>) {
    v.Some? && v.value.Num? && v.value.number == v.value.number.Floor as real && v.value.number >= 1.0
  }

  /** What the `id` parameter yields: both the integer rule and the minimum rule run. */
  lemma IdDetails(v: Option<Value>, isEmail: EmailCheck)
    ensures var ds := FieldDetails(UserParamsSchema, ParamsId, v, isEmail);
      && (v.None? ==> ds == [Detail("ID is required", [KeySegment("id")], AnyRequired)])
      && (v.Some? && !v.value.Num? ==> ds == [Detail("ID must be an integer", [KeySegment("id")], NumberBase)])
      && (v.Some? && v.value.Num? ==> ds == IdNumberDetails(v.value.number))
      && (ds == [] <==> PositiveInteger(v))
  {
    if v.Some? && v.value.Num? {
      IdNumberCase(v.value, isEmail);
    }
  }

  lemma IdNumberCase(x: Value, isEmail: EmailCheck)
    requires x.Num?
    ensures FieldDetails(UserParamsSchema, ParamsId, Some(x), isEmail) == IdNumberDetails(x.number)
  {
    TwoNumberRules(UserParamsSchema, ParamsId, x, isEmail);
  }

  /** The errors of a numeric id: one for a fraction, one for a value below 1, both when both hold. */
  function IdNumberDetails(x: real): (ds: seq<Detail>)
    ensures |ds| <= 2
    ensures ds == [] <==> x == x.Floor as real && x >= 1.0
  {
    (if x != x.Floor as real then [Detail("ID must be an integer", [KeySegment("id")], NumberInteger)] else []) +
    (if x < 1.0 then [Detail("ID must be greater than 0", [KeySegment("id")], NumberMin)] else [])
  }

  // ----- whole bodies -----

  /** Only the three user fields, as both body schemas declare them. */
  predicate OnlyUserKeys(data: Props<Value>) {
    forall k :: k in Keys(data) ==> k in UserKeys
  }

  /** A create body the schema accepts: a name of 2+ units, a valid email, a password of 6+ units, nothing else. */
  predicate CreateBodyValid(data: Props<Value>, isEmail: EmailCheck) {
    && LongEnough(Get(data, "name"), 2)
    && GoodEmail(Get(data, "email"), isEmail)
    && LongEnough(Get(data, "password"), 6)
    && OnlyUserKeys(data)
  }

  /** An update body the schema accepts: each field absent or valid, nothing else, and at least one key. */
  predicate UpdateBodyValid(data: Props<Value>, isEmail: EmailCheck) {
    && (Get(data, "name").None? || LongEnough(Get(data, "name"), 2))
    && (Get(data, "email").None? || GoodEmail(Get(data, "email"), isEmail))
    && (Get(data, "password").None? || LongEnough(Get(data, "password"), 6))
    && OnlyUserKeys(data)
    && |data| >= 1
  }

  /** The value a create DTO holds for a user field: the supplied one, or the empty string. */
  lemma CreateDtoField(data: Props<Value>, key: string)
    requires UniqueKeys(data)
    requires key in UserKeys
    ensures Get(CreateDto(data), key) == if key in Keys(data) then Get(data, key) else Some(Str(""))
  {
    AssignedGet(CreateUserDefaults, data, key);
  }

  /** A create DTO has undeclared keys exactly when the request data has. */
  lemma CreateDtoKeys(data: Props<Value>)
    requires UniqueKeys(data)
    ensures (forall k :: k in Keys(CreateDto(data)) ==> k in UserKeys) <==> OnlyUserKeys(data)
  {
    forall k ensures k in Keys(CreateDto(data)) <==> k in Keys(CreateUserDefaults) || k in Keys(data) {
      AssignedKeySet(CreateUserDefaults, data, k);
    }
    assert Keys(CreateUserDefaults) == UserKeys;
  }

  /** The create schema's verdict on any object, field by field. */
  lemma CreateObjectAcceptance(obj: Props<Value>, isEmail: EmailCheck)
    ensures ValidateObject(CreateUserSchema, obj, isEmail) == [] <==>
      && LongEnough(Get(obj, "name"), 2)
      && GoodEmail(Get(obj, "email"), isEmail)
      && LongEnough(Get(obj, "password"), 6)
      && forall k :: k in Keys(obj) ==> k in UserKeys
  {
    VerdictOfThree(CreateUserSchema, obj, isEmail);
    PresenceRules();
    KeysWithin(obj, UserKeys);
    assert FieldDetails(CreateUserSchema, CreateName, Get(obj, "name"), isEmail) == [] <==> LongEnough(Get(obj, "name"), 2) by {
      CreateNameDetails(Get(obj, "name"), isEmail);
    }
    assert FieldDetails(CreateUserSchema, CreateEmail, Get(obj, "email"), isEmail) == [] <==> GoodEmail(Get(obj, "email"), isEmail) by {
      CreateEmailDetails(Get(obj, "email"), isEmail);
    }
    assert FieldDetails(CreateUserSchema, CreatePassword, Get(obj, "password"), isEmail) == [] <==> LongEnough(Get(obj, "password"), 6) by {
      CreatePasswordDetails(Get(obj, "password"), isEmail);
    }
  }

  /** The create schema accepts a body exactly when CreateBodyValid holds. */
  lemma CreateAcceptance(data: Props<Value>, isEmail: EmailCheck)
    requires UniqueKeys(data)
    ensures ValidateObject(CreateUserSchema, CreateDto(data), isEmail) == [] <==> CreateBodyValid(data, isEmail)
  {
    var obj := CreateDto(data);
    CreateObjectAcceptance(obj, isEmail);
    CreateDtoKeys(data);
    CreateDtoField(data, "name");
    CreateDtoField(data, "email");
    CreateDtoField(data, "password");
    assert Utf16Length("") == 0;
  }

  /**
   * A field left out of a create body reads as the empty string, so it is
   * reported as required through the empty-string rule.
   */
  lemma CreateMissingFieldIsRequired(data: Props<Value>, isEmail: EmailCheck)
    requires UniqueKeys(data)
    ensures "name" !in Keys(data) ==>
      Detail("Name is required", [KeySegment("name")], StringEmpty) in ValidateObject(CreateUserSchema, CreateDto(data), isEmail)
    ensures "email" !in Keys(data) ==>
      Detail("Email is required", [KeySegment("email")], StringEmpty) in ValidateObject(CreateUserSchema, CreateDto(data), isEmail)
    ensures "password" !in Keys(data) ==>
      Detail("Password is required", [KeySegment("password")], StringEmpty) in ValidateObject(CreateUserSchema, CreateDto(data), isEmail)
  {
    var obj := CreateDto(data);
    if "name" !in Keys(data) {
      CreateDtoField(data, "name");
      CreateNameDetails(Get(obj, "name"), isEmail);
      FieldErrorReported(CreateUserSchema, obj, isEmail, 0, Detail("Name is required", [KeySegment("name")], StringEmpty));
    }
    if "email" !in Keys(data) {
      CreateDtoField(data, "email");
      CreateEmailDetails(Get(obj, "email"), isEmail);
      FieldErrorReported(CreateUserSchema, obj, isEmail, 1, Detail("Email is required", [KeySegment("email")], StringEmpty));
    }
    if "password" !in Keys(data) {
      CreateDtoField(data, "password");
      CreatePasswordDetails(Get(obj, "password"), isEmail);
      FieldErrorReported(CreateUserSchema, obj, isEmail, 2, Detail("Password is required", [KeySegment("password")], StringEmpty));
    }
  }

  /** A non-empty string shorter than n UTF-16 units. */
  predicate TooShort(v: Option<Value>, n: nat) {
    v.Some? && v.value.Str? && v.value.text != "" && Utf16Length(v.value.text) < n
  }

  /** A non-empty string that fails the email check. */
  predicate BadEmail(v: Option<Value>, isEmail: EmailCheck) {
    v.Some? && v.value.Str? && v.value.text != "" && !isEmail(v.value.text)
  }

  /**
   * Validation is exhaustive: a body whose three fields are all wrong gets
   * one message for each, in field order, not only the first.
   */
  lemma CreateReportsEveryField(data: Props<Value>, isEmail: EmailCheck)
    requires UniqueKeys(data) && OnlyUserKeys(data)
    requires TooShort(Get(data, "name"), 2)
    requires BadEmail(Get(data, "email"), isEmail)
    requires TooShort(Get(data, "password"), 6)
    ensures ValidateObject(CreateUserSchema, CreateDto(data), isEmail) ==
      [Detail("Name must be at least 2 characters long", [KeySegment("name")], StringMin),
       Detail("Invalid email format", [KeySegment("email")], StringEmail),
       Detail("Password must be at least 6 characters long", [KeySegment("password")], StringMin)]
  {
    var obj := CreateDto(data);
    CreateDtoKeys(data);
    KeysWithin(obj, UserKeys);
    PresenceRules();
    var d0 := Detail("Name must be at least 2 characters long", [KeySegment("name")], StringMin);
    var d1 := Detail("Invalid email format", [KeySegment("email")], StringEmail);
    var d2 := Detail("Password must be at least 6 characters long", [KeySegment("password")], StringMin);
    ReportOfThree(CreateUserSchema, obj, isEmail);
    assert ThreeFieldErrors(CreateUserSchema, obj, isEmail) == [d0] + [d1] + [d2] by {
      CreateFieldErrors(obj, isEmail);
      ShortNameInCreate(data, isEmail);
      BadEmailInCreate(data, isEmail);
      ShortPasswordInCreate(data, isEmail);
    }
    Singletons(d0, d1, d2);
  }

  /** Three one-element sequences joined are the three-element sequence; kept apart to keep the proof above small. */
  lemma Singletons<T>(a: T, b: T, c: T)
    ensures [a] + [b] + [c] == [a, b, c]
  {
    assert ([a] + [b] + [c])[2] == c;
  }

  /** The three field reports of the create schema, by field. */
  lemma CreateFieldErrors(obj: Props<Value>, isEmail: EmailCheck)
    ensures ThreeFieldErrors(CreateUserSchema, obj, isEmail) ==
      FieldDetails(CreateUserSchema, CreateName, Get(obj, "name"), isEmail) +
      FieldDetails(CreateUserSchema, CreateEmail, Get(obj, "email"), isEmail) +
      FieldDetails(CreateUserSchema, CreatePassword, Get(obj, "password"), isEmail)
  {
    assert CreateUserSchema.fields[0] == CreateName;
    assert CreateUserSchema.fields[1] == CreateEmail;
    assert CreateUserSchema.fields[2] == CreatePassword;
  }

  lemma ShortNameInCreate(data: Props<Value>, isEmail: EmailCheck)
    requires UniqueKeys(data) && TooShort(Get(data, "name"), 2)
    ensures FieldDetails(CreateUserSchema, CreateName, Get(CreateDto(data), "name"), isEmail) ==
      [Detail("Name must be at least 2 characters long", [KeySegment("name")], StringMin)]
  {
    CreateDtoField(data, "name");
    CreateNameDetails(Get(data, "name"), isEmail);
  }

  lemma BadEmailInCreate(data: Props<Value>, isEmail: EmailCheck)
    requires UniqueKeys(data) && BadEmail(Get(data, "email"), isEmail)
    ensures FieldDetails(CreateUserSchema, CreateEmail, Get(CreateDto(data), "email"), isEmail) ==
      [Detail("Invalid email format", [KeySegment("email")], StringEmail)]
  {
    CreateDtoField(data, "email");
    CreateEmailDetails(Get(data, "email"), isEmail);
  }

  lemma ShortPasswordInCreate(data: Props<Value>, isEmail: EmailCheck)
    requires UniqueKeys(data) && TooShort(Get(data, "password"), 6)
    ensures FieldDetails(CreateUserSchema, CreatePassword, Get(CreateDto(data), "password"), isEmail) ==
      [Detail("Password must be at least 6 characters long", [KeySegment("password")], StringMin)]
  {
    CreateDtoField(data, "password");
    CreatePasswordDetails(Get(data, "password"), isEmail);
  }

  /** The body `{ name: "a", email: "bad", password: "12" }` meets all three failures. */
  lemma ThreeWrongFields(isEmail: EmailCheck)
    requires !isEmail("bad")
    ensures var data := [("name", Str("a")), ("email", Str("bad")), ("password", Str("12"))];
      UniqueKeys(data) && OnlyUserKeys(data) &&
      TooShort(Get(data, "name"), 2) && BadEmail(Get(data, "email"), isEmail) && TooShort(Get(data, "password"), 6)
  {
    var data := [("name", Str("a")), ("email", Str("bad")), ("password", Str("12"))];
    assert Keys(data) == UserKeys;
    assert Utf16Length("a") == 1 && Utf16Length("12") == 2;
  }

  /** An update DTO is the request data itself. */
  lemma UpdateDtoIsData(data: Props<Value>)
    requires UniqueKeys(data)
    ensures UpdateDto(data) == data
  {
    AssignedDisjoint(UpdateUserDefaults, data);
  }

  /** The update schema accepts a body exactly when UpdateBodyValid holds. */
  lemma UpdateAcceptance(data: Props<Value>, isEmail: EmailCheck)
    requires UniqueKeys(data)
    ensures ValidateObject(UpdateUserSchema, UpdateDto(data), isEmail) == [] <==> UpdateBodyValid(data, isEmail)
  {
    UpdateDtoIsData(data);
    VerdictOfThree(UpdateUserSchema, data, isEmail);
    PresenceRules();
    KeysWithin(data, UserKeys);
    assert FieldDetails(UpdateUserSchema, UpdateName, Get(data, "name"), isEmail) == [] <==>
        Get(data, "name").None? || LongEnough(Get(data, "name"), 2) by {
      UpdateNameDetails(Get(data, "name"), isEmail);
    }
    assert FieldDetails(UpdateUserSchema, UpdateEmail, Get(data, "email"), isEmail) == [] <==>
        Get(data, "email").None? || GoodEmail(Get(data, "email"), isEmail) by {
      UpdateEmailDetails(Get(data, "email"), isEmail);
    }
    assert FieldDetails(UpdateUserSchema, UpdatePassword, Get(data, "password"), isEmail) == [] <==>
        Get(data, "password").None? || LongEnough(Get(data, "password"), 6) by {
      UpdatePasswordDetails(Get(data, "password"), isEmail);
    }
  }

  /** An update body that sets nothing fails with the object-level message alone, filed under the empty key. */
  lemma UpdateNeedsAField(isEmail: EmailCheck)
    ensures ValidateObject(UpdateUserSchema, UpdateDto([]), isEmail) ==
      [Detail("At least one field must be provided for update", [], ObjectMin)]
    ensures DetailKey(Detail("At least one field must be provided for update", [], ObjectMin)) == ""
  {
    assert UpdateDto([]) == [];
    ReportOfThree(UpdateUserSchema, [], isEmail);
    UpdateNameDetails(None, isEmail);
    UpdateEmailDetails(None, isEmail);
    UpdatePasswordDetails(None, isEmail);
  }

  /**
   * A key the DTO does not declare is reported by name, whatever else the body holds.
   */
  lemma UnknownKeyReported(data: Props<Value>, k: string, isEmail: EmailCheck)
    requires UniqueKeys(data)
    requires k in Keys(data) && k !in UserKeys
    ensures Detail(Quoted(k) + " is not allowed", [KeySegment(k)], ObjectUnknown) in ValidateObject(CreateUserSchema, CreateDto(data), isEmail)
    ensures Detail(Quoted(k) + " is not allowed", [KeySegment(k)], ObjectUnknown) in ValidateObject(UpdateUserSchema, UpdateDto(data), isEmail)
  {
    PresenceRules();
    assert UnknownError(CreateUserSchema, k) == Detail(Quoted(k) + " is not allowed", [KeySegment(k)], ObjectUnknown);
    assert UnknownError(UpdateUserSchema, k) == Detail(Quoted(k) + " is not allowed", [KeySegment(k)], ObjectUnknown);
    assert UnknownError(CreateUserSchema, k) in ValidateObject(CreateUserSchema, CreateDto(data), isEmail) by {
      AssignedKeySet(CreateUserDefaults, data, k);
      UnknownKeyError(CreateUserSchema, CreateDto(data), isEmail, k);
    }
    assert UnknownError(UpdateUserSchema, k) in ValidateObject(UpdateUserSchema, UpdateDto(data), isEmail) by {
      UpdateDtoIsData(data);
      UnknownKeyError(UpdateUserSchema, data, isEmail, k);
    }
  }

  /**
   * A body key named like a member every object inherits (`constructor`,
   * `toString`, ...) is reported as not allowed, and that report is filed
   * under a key whose grouping throws.
   */
  lemma InheritedKeyThrows(data: Props<Value>, k: string, isEmail: EmailCheck)
    requires UniqueKeys(data)
    requires k in Keys(data) && k in InheritedNames
    ensures !NoInheritedKey(ValidateObject(CreateUserSchema, CreateDto(data), isEmail))
    ensures !NoInheritedKey(ValidateObject(UpdateUserSchema, UpdateDto(data), isEmail))
  {
    PresenceRules();
    InheritedNotDeclared(k);
    AssignedKeySet(CreateUserDefaults, data, k);
    UnknownInheritedKey(CreateUserSchema, CreateDto(data), isEmail, k);
    UpdateDtoIsData(data);
    UnknownInheritedKey(UpdateUserSchema, UpdateDto(data), isEmail, k);
  }

  lemma InheritedNotDeclared(k: string)
    requires k in InheritedNames
    ensures k !in UserKeys
  {
    assert |k| >= 2 && k[0] != 'n' && k[0] != 'e' && (k[0] == 'p' ==> k[1] == 'r');
  }

  // ----- the route parameter -----

  /**
   * A params object without `id` breaks the `required` rule, but a
   * UserParamsDto built by `fromRequest` never lacks one: its default 0 takes
   * the place of a missing id, which the minimum rule rejects instead.
   */
  lemma MissingId(isEmail: EmailCheck)
    ensures ValidateObject(UserParamsSchema, [], isEmail) ==
      [Detail("ID is required", [KeySegment("id")], AnyRequired)]
    ensures ValidateObject(UserParamsSchema, ParamsDto([]), isEmail) ==
      [Detail("ID must be greater than 0", [KeySegment("id")], NumberMin)]
  {
    ReportOfOne(UserParamsSchema, [], isEmail);
    IdDetails(None, isEmail);
    assert ParamsDto([]) == UserParamsDefaults;
    assert DeclaredKeys(UserParamsSchema.fields) == ["id"];
    ReportOfOne(UserParamsSchema, UserParamsDefaults, isEmail);
    IdDetails(Some(Num(0.0)), isEmail);
    assert (0.0).Floor == 0;
  }

  /** The params schema accepts an object exactly when its id is a whole number of at least 1 and it has no other key. */
  lemma ParamsAcceptance(data: Props<Value>, isEmail: EmailCheck)
    requires UniqueKeys(data)
    ensures ValidateObject(UserParamsSchema, ParamsDto(data), isEmail) == [] <==>
      PositiveInteger(Get(data, "id")) && forall k :: k in Keys(data) ==> k == "id"
  {
    var obj := ParamsDto(data);
    VerdictOfOne(UserParamsSchema, obj, isEmail);
    assert DeclaredKeys(UserParamsSchema.fields) == ["id"] && UserParamsSchema.minKeys.None?;
    assert (forall i :: 0 <= i < |obj| ==> obj[i].0 in ["id"]) <==> (forall k :: k in Keys(data) ==> k == "id") by {
      KeysWithin(obj, ["id"]);
      forall k ensures k in Keys(obj) <==> k == "id" || k in Keys(data) {
        AssignedKeySet(UserParamsDefaults, data, k);
      }
    }
    assert FieldDetails(UserParamsSchema, ParamsId, Get(obj, "id"), isEmail) == [] <==> PositiveInteger(Get(data, "id")) by {
      AssignedGet(UserParamsDefaults, data, "id");
      IdDetails(Get(obj, "id"), isEmail);
      assert (0.0).Floor == 0;
    }
  }
}
