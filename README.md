# Users CRUD API core, modelled in Dafny

This project models the core of an Express + TypeORM REST API for users.

- **Pagination calculator** (`Pagination`).
  - `getPaginationParams` turns the `page` and `limit` query parameters into a clamped page, limit and offset.
  - `buildPaginationMeta` computes the page metadata.
  - `buildPaginationLinks` builds the first/last/next/prev links, path-based or query-based. Query-based links go through `URLSearchParams.set` and `toString()`, modelled in `SearchParams`.
  - `createPaginatedResponse` combines the three.
- **Response envelope** (`Envelope`): the `success`, `error` and `fail` builders, and the shape each status promises.
- **Error handler** (`ErrorHandler`).
  - `AppError` is a class whose constructor derives `status` from the code's first digit.
  - `errorHandler` fills in the status code and status on the error object, then picks the response by `NODE_ENV`.
  - `sendErrorDev` and `sendErrorProd` choose a JSON body or a rendered page.
- **DTO base** (`BaseDto`).
  - `validate` runs the schema and groups the violations by joined path. The `reduce` is modelled as a loop.
  - `fromRequest` is `Object.assign` over a fresh instance. That is a loop over an ordered property list, modelled in `JsObject`.
- **User DTO schemas** (`SchemaRules`, `UserDtos`).
  - The create, update and `:id` schemas are rule tables.
  - One exhaustive validator (`abortEarly: false`) reads them. It follows the schema library's documented behaviour: base-type errors, every rule reported, unknown keys, and the object-level `min` rule.
- **User service** (`Users`). A class whose state is the user table:
  - rows by id, the listing order and the next auto-increment id;
  - `getAllUsers`, `getUsersPaginated`, `getUserById`, `create`, `update` and `delete`;
  - `parseUserId`.

  Each state-changing method is proved equal to a step function on the table and keeps the table invariant: ids match keys, ascending listing order, unique emails.

Supporting modules:
- `JsText`: decimal rendering of integers, `startsWith`, `parseInt(s, 10)` and UTF-16 length.
- `JsObject`: JavaScript objects as ordered property lists.
- `Wrappers`: `Option` and `Result`.

Inputs from the outside world are parameters:
- the request's protocol, host, path and query;
- `NODE_ENV`;
- the email syntax check, a function `isEmail`;
- the outcome of the schema validation.

## Where the code and its description differ

The model follows the code in each of these cases.
- An `AppError` with any 4xx code has status `'fail'`, so the service's 409 conflicts are reported as `'fail'`, not `'error'` (`Users.ServiceFailuresAreClientErrors`).
- With no items, `totalPages` is 0. The `last` link then points to page 0 (`Pagination.PaginatedLinks`).
- `UserParamsDto` starts with `id = 0`, so a DTO built by `fromRequest` never lacks an id. A missing id is reported as "ID must be greater than 0", never as "ID is required" (`UserDtos.MissingId`).
- `UpdateUserDto` only declares its fields. When the compiler emits no initialisers for such fields, a fresh instance has no own properties and the validated object is exactly the request body (`UserDtos.UpdateDtoIsData`). The compiler setting is not in the repository; "## Left out" records the assumption.
- An update whose email is the empty string is not checked for uniqueness. The table invariant therefore exempts the empty email (`Users.EmailsDistinct`).
- `delete` removes first and then checks the affected count. A missing user changes nothing and gets 404 (`Users.UserService.Delete`).
- `validate` groups messages in a plain `{}`. A violation whose path is a name every object inherits, such as `constructor` or `toString`, reads the inherited member at base.dto.ts:19. That member is truthy and has no `push`, so line 20 throws a TypeError. A body key with such a name is reported as not allowed, so a request body `{"constructor": 1}` makes validation throw. The error handler then answers 500, not 400 (`UserDtos.InheritedKeyThrows`, `BaseDto.GroupDetails`, `ErrorHandler.PlainErrorIs500`).
- `err.status || 'error'` keeps any truthy status, including a number. An error from a JSON body parser carries `status: 400`, so the JSON body's `status` is the number 400, not `'fail'` (`ErrorHandler.NumericStatusKept`).
- `Object.keys`, `Object.assign` and JSON output list integer-like keys first, in ascending order. An unknown key such as `"3"` is reported before the other unknown keys, whatever its place in the body (`JsObject.EnumerationOrderFacts`, `SchemaRules.UnknownDetails`).

## Model

| member | source | states |
|---|---|---|
| JsText.IntToString | src/shared/middleware/error-handler.middleware.ts:11 | `${n}` is never empty and starts with '-' exactly for negative n |
| JsText.IntToStringStartsWithDigit | src/shared/middleware/error-handler.middleware.ts:11 | `${n}`.startsWith(d) for a digit d holds exactly when n >= 0 and n's leading decimal digit is d |
| JsText.ParseIntOfIntToString | src/modules/users/user.service.ts:129 | parseInt(s, 10) reads back any rendered integer followed by any non-digit text |
| JsText.ParseInt | src/modules/users/user.service.ts:129-132 | parseInt yields NaN exactly when no digit follows the leading white space and optional sign |
| JsText.TrimStartDropsWhitespace | src/modules/users/user.service.ts:129 | the prefix parseInt skips consists of white space only |
| JsText.Utf16Length | src/modules/users/dto/create-user.dto.ts:12 | a string's `length` is between its code-point count and twice that, and equals it without astral characters |
| JsObject.Get | src/shared/dto/base.dto.ts:19 | an own-property read is defined exactly for the object's keys and returns that key's value |
| JsObject.PutGet | src/shared/dto/base.dto.ts:19-20 | after `o[k] = v`, reading k gives v and every other key reads as before |
| JsObject.PutKeys | src/shared/dto/base.dto.ts:19-20 | a write keeps existing keys in place and appends a new key last |
| JsObject.PutUnique | src/shared/dto/base.dto.ts:19-20 | a write keeps keys unique |
| JsObject.AssignedGet | src/shared/dto/base.dto.ts:33 | after Object.assign a key of the source reads its source value; every other key reads its target value |
| JsObject.AssignedKeys | src/shared/dto/base.dto.ts:33 | after Object.assign the keys are the target's, in place, followed by the source's new keys in source order |
| JsObject.AssignedUnique | src/shared/dto/base.dto.ts:33 | Object.assign keeps keys unique |
| JsObject.AssignedKeySet | src/shared/dto/base.dto.ts:33 | an assigned object has exactly the keys of the target and of the source |
| JsObject.AssignedDisjoint | src/shared/dto/base.dto.ts:33 | assigning keys that the target lacks appends them in source order |
| JsObject.Assign | src/shared/dto/base.dto.ts:33 | the property-by-property copy loop computes Object.assign: source values win, target keys keep their place, new keys follow, keys stay unique |
| JsObject.InsertIndexAscending | src/shared/dto/base.dto.ts:33 | inserting an array-index key into an ascending list of index keys keeps it ascending |
| JsObject.IndexKeysAscending | src/shared/dto/base.dto.ts:33 | the array-index keys of an object enumerate in ascending numeric order |
| JsObject.EnumerationOrderFacts | src/shared/dto/base.dto.ts:33 | enumeration lists the same keys as creation order: array-index keys first and ascending, then the other keys in creation order; without array-index keys the two orders are equal |
| JsObject.IndexKeyListedFirst | src/modules/users/dto/create-user.dto.ts:10 | a key "3" created after "name" is enumerated before it |
| SearchParams.Lookup | src/shared/utils/pagination.ts:92 | `get(name)` finds a value exactly when some pair has that name |
| SearchParams.Set | src/shared/utils/pagination.ts:93-94 | after `set(name, value)` exactly one pair has that name, it holds value, and the pairs of all other names are unchanged and in order |
| SearchParams.SetLookupOther | src/shared/utils/pagination.ts:93-94 | `set` does not change what any other name reads |
| SearchParams.WithoutTwice | src/shared/utils/pagination.ts:93-94 | dropping two names gives the same list in either order |
| SearchParams.FormEncodeIsEncoded | src/shared/utils/pagination.ts:95 | a form-encoded name or value contains only unreserved characters, '+', '%' and hex digits, never '&' or '=' |
| SearchParams.FormEncodeUnreserved | src/shared/utils/pagination.ts:95 | text of unreserved characters serializes as itself |
| SearchParams.Serialize | src/shared/utils/pagination.ts:95 | the serialized query is empty for no pairs; otherwise it holds one '=' per pair and one '&' between consecutive pairs, so the pairs can be split apart again |
| SearchParams.PairTextSeparators | src/shared/utils/pagination.ts:95 | an encoded pair holds exactly one '=' and no '&' |
| Pagination.DefaultLimit | src/shared/utils/pagination.ts:45 | the default limit is never 0, and a missing or 0 option falls back to 10 |
| Pagination.MaxLimit | src/shared/utils/pagination.ts:46 | the maximum limit is never 0, and a missing or 0 option falls back to 100 |
| Pagination.GetPaginationParams | src/shared/utils/pagination.ts:41-53 | page >= 1 and a positive page is kept; limit is in [1, maxLimit], taking the requested value when in range, maxLimit above it and 1 below it, the default when missing; skip is the number of items on earlier pages |
| Pagination.CeilDiv | src/shared/utils/pagination.ts:63 | Math.ceil(t / d) is the least q with t <= q * d for positive d, and the mirror bound for negative d |
| Pagination.BuildPaginationMeta | src/shared/utils/pagination.ts:58-72 | the metadata echoes page, limit and total; for a positive limit totalPages is the ceiling of total over limit; hasNextPage exactly when page < totalPages, hasPrevPage exactly when page > 1 |
| Pagination.MetaOfNoItems | src/shared/utils/pagination.ts:58-72 | with no items there are 0 pages and no next page from any page >= 1 |
| Pagination.MetaTotalPagesLeast | src/shared/utils/pagination.ts:63 | totalPages is the least number of pages of the given size that hold all items |
| Pagination.MetaNavigation | src/shared/utils/pagination.ts:69-70 | hasNextPage exactly when items lie beyond the current page; hasPrevPage exactly when page >= 2 |
| Pagination.BuildUrl | src/shared/utils/pagination.ts:87-96 | a path-based link starts with the base URL, `/page/<p>` and `/limit/`; a query-based link starts with the base URL, the request path and '?' |
| Pagination.BuildPaginationLinks | src/shared/utils/pagination.ts:77-104 | first is page 1 and last is page totalPages; next exists exactly when hasNextPage and names page+1; prev exists exactly when hasPrevPage and names page-1 |
| Pagination.PathLinkReadsBack | src/shared/utils/pagination.ts:88-89 | the page segment of a path-based link parses back to the page it was built for |
| Pagination.PathUrlShape | src/shared/utils/pagination.ts:89 | a path-based link is the base URL, `/page/`, the page number, `/limit/` and the limit |
| Pagination.QueryLinkParams | src/shared/utils/pagination.ts:91-95 | a query-based link has exactly one page and one limit parameter with the given values, and the request's other parameters unchanged and in order |
| Pagination.CreatePaginatedResponse | src/shared/utils/pagination.ts:109-128 | items pass through untouched; metadata and links use the page and limit derived from the same request and options |
| Pagination.PaginatedLinks | src/shared/utils/pagination.ts:98-103 | in a paginated response there is no next link exactly from page totalPages on, no prev link exactly on page 1, and with no items no next link and a last link to page 0 |
| Envelope.StatusText | src/shared/utils/api-response.ts:3 | the JSON status is 'success' exactly for Success and 'fail' exactly for Fail |
| Envelope.SuccessOf | src/shared/utils/api-response.ts:19-25 | a success body carries the data and no error part; an omitted message becomes 'Operation successful' |
| Envelope.ErrorOf | src/shared/utils/api-response.ts:33-46 | an error body has no data and no top-level message, and its error part carries code, message and details |
| Envelope.FailOf | src/shared/utils/api-response.ts:53-62 | a fail body has no data and no code, and repeats its error message at the top level |
| Envelope.BuildersConform | src/shared/utils/api-response.ts:2-11 | every body a builder makes has the shape its status promises |
| Envelope.ConformingIsBuilt | src/shared/utils/api-response.ts:2-11 | every body of the promised shape is what a builder makes from its own parts |
| Envelope.NeverDataAndError | src/shared/utils/api-response.ts:2-11 | no conforming body carries both data and an error part; data is present exactly on success |
| ErrorHandler.StatusForCodeMeaning | src/shared/middleware/error-handler.middleware.ts:11 | the derived status is 'fail' exactly for non-negative codes led by the digit 4, and 'error' otherwise |
| ErrorHandler.StatusForHttpCode | src/shared/middleware/error-handler.middleware.ts:11 | on three-digit codes the status is 'fail' exactly for 400-499 |
| ErrorHandler.StatusForCode | src/shared/middleware/error-handler.middleware.ts:11 | an AppError's derived status is always 'fail' or 'error' |
| ErrorHandler.ThrownError.AppError | src/shared/middleware/error-handler.middleware.ts:8-15 | a new AppError holds its message and code, the status derived from the code, and its own isOperational property set to true |
| ErrorHandler.ThrownError.Other | src/shared/middleware/error-handler.middleware.ts:18-19 | any other thrown value holds whatever fields it came with, isOperational absent unless it set one |
| ErrorHandler.FilledCode | src/shared/middleware/error-handler.middleware.ts:24 | the filled code is never 0: a missing or 0 code becomes 500, any other is kept |
| ErrorHandler.FilledStatus | src/shared/middleware/error-handler.middleware.ts:25 | the filled status is always truthy: a missing, empty or zero status becomes 'error', any truthy string or number is kept as it is |
| ErrorHandler.SendErrorDev | src/shared/middleware/error-handler.middleware.ts:35-51 | in development the HTTP status is the error's code; API routes get the status, the message and the error object as JSON serializes it: its own enumerable fields statusCode, status and, where set, isOperational, never the message; other routes get the error page with its message |
| ErrorHandler.Respond | src/shared/middleware/error-handler.middleware.ts:27-31 | a response is sent exactly when NODE_ENV is 'development' or 'production' |
| ErrorHandler.HandleError | src/shared/middleware/error-handler.middleware.ts:18-32 | the handler writes the defaulted code and status onto the error object, leaves message and isOperational alone, and answers by mode |
| ErrorHandler.SendErrorProd | src/shared/middleware/error-handler.middleware.ts:54-77 | in production an operational error reaches API clients with its code, status and message; any other error gets 500 with a generic message; pages show an unexpected error's message never; JSON never includes the error object |
| ErrorHandler.ProductionHidesUnexpectedMessages | src/shared/middleware/error-handler.middleware.ts:65-69 | two non-operational errors differing only in message get the same production response |
| ErrorHandler.AppErrorKeepsCodeAndStatus | src/shared/middleware/error-handler.middleware.ts:24-25 | the defaults never overwrite an AppError's non-zero code or its derived status, so the client sees both; in development its serialized error part is exactly statusCode, status and isOperational true |
| ErrorHandler.AppErrorStatusOnHttpCodes | src/shared/middleware/error-handler.middleware.ts:11 | an AppError with a 4xx code is reported as 'fail', one with a 5xx code as 'error' |
| ErrorHandler.NumericStatusKept | src/shared/middleware/error-handler.middleware.ts:24-25 | an error with a numeric status and code keeps both: in development the JSON status is that number and its serialized error part has no isOperational field; in production, being non-operational, it gets 500 |
| ErrorHandler.PlainErrorIs500 | src/shared/middleware/error-handler.middleware.ts:24-25 | an error without code or status, such as a TypeError, is answered with 500 and status 'error' in either mode, its message is hidden from production API clients, and in development its serialized error part holds only statusCode 500 and status 'error' |
| SchemaRules.FieldError | src/modules/users/dto/create-user.dto.ts:14-18 | a field's error carries the field's path and the rule's code |
| SchemaRules.RuleDetails | src/modules/users/dto/create-user.dto.ts:11-18 | every rule of a field runs: each failing rule's error is reported, and nothing else is |
| SchemaRules.ChildrenFacts | src/shared/dto/base.dto.ts:13 | every field's errors are among the reported ones, and there are none exactly when every field passes |
| SchemaRules.UnknownDetails | src/modules/users/dto/create-user.dto.ts:10 | an undeclared key is reported by name, and nothing is reported exactly when every key is declared |
| SchemaRules.UnknownInOrder | src/modules/users/dto/create-user.dto.ts:10 | walking the keys in a given order reports each undeclared key, and nothing exactly when every key is declared |
| SchemaRules.ValidateObject | src/shared/dto/base.dto.ts:13 | validation passes exactly when every field passes, every key is declared and the key count is met; it is exhaustive over fields and unknown keys |
| SchemaRules.SingleStringRule | src/modules/users/dto/create-user.dto.ts:11-18 | a non-empty string under one rule gets that rule's error exactly when the rule fails |
| SchemaRules.TwoNumberRules | src/modules/users/dto/user-params.dto.ts:9-11 | a number under two rules gets both rules' errors, in rule order |
| SchemaRules.VerdictOfThree | src/modules/users/dto/create-user.dto.ts:10-37 | a three-field object passes exactly when each field passes, no key is unknown and the key count is met |
| SchemaRules.ThreeFieldsPassSuffices | src/modules/users/dto/create-user.dto.ts:10-37 | three passing fields without unknown keys and with enough keys give no error |
| SchemaRules.FieldErrorReported | src/shared/dto/base.dto.ts:13 | with abortEarly false, any field's error is among those reported |
| SchemaRules.UnknownKeyError | src/modules/users/dto/update-user.dto.ts:10 | any undeclared key is reported |
| SchemaRules.VerdictOfOne | src/modules/users/dto/user-params.dto.ts:8-19 | a one-field object passes exactly when its field passes, no key is unknown and the key count is met |
| SchemaRules.ReportOfOne | src/modules/users/dto/user-params.dto.ts:8-19 | without unknown keys the report is the field's errors, or else the object-level error when keys are too few |
| SchemaRules.ReportOfThree | src/modules/users/dto/update-user.dto.ts:10-33 | without unknown keys the report is the three fields' errors in order, or else the object-level error when keys are too few |
| SchemaRules.ChildrenOfThree | src/modules/users/dto/update-user.dto.ts:10-30 | three fields' errors come in declaration order |
| UserDtos.PresenceRules | src/modules/users/dto/update-user.dto.ts:10-33 | create fields are all required, update fields all optional, only the update needs at least one key, and both declare name, email, password |
| UserDtos.CreateNameDetails | src/modules/users/dto/create-user.dto.ts:11-18 | name: missing or empty gives "Name is required", shorter than 2 gives the length message, a non-string the type message; it passes exactly for a string of 2+ units |
| UserDtos.CreateEmailDetails | src/modules/users/dto/create-user.dto.ts:20-27 | email: missing or empty gives "Email is required", a failing email check "Invalid email format"; it passes exactly for a non-empty string that passes the check |
| UserDtos.CreatePasswordDetails | src/modules/users/dto/create-user.dto.ts:29-36 | password: missing or empty gives "Password is required", shorter than 6 the length message; it passes exactly for a string of 6+ units |
| UserDtos.UpdateNameDetails | src/modules/users/dto/update-user.dto.ts:11-16 | an absent update name passes; otherwise as in create, with the library's text for an empty string |
| UserDtos.UpdateEmailDetails | src/modules/users/dto/update-user.dto.ts:18-23 | an absent update email passes; otherwise it must be a non-empty string passing the email check |
| UserDtos.UpdatePasswordDetails | src/modules/users/dto/update-user.dto.ts:25-30 | an absent update password passes; otherwise it needs 6+ units |
| UserDtos.IdDetails | src/modules/users/dto/user-params.dto.ts:8-19 | id: missing gives "ID is required", a non-number "ID must be an integer", a number its integer and minimum errors; it passes exactly for a whole number >= 1 |
| UserDtos.IdNumberDetails | src/modules/users/dto/user-params.dto.ts:10-11 | a numeric id gets at most two errors and none exactly when it is whole and at least 1 |
| UserDtos.CreateDtoField | src/modules/users/dto/create-user.dto.ts:6-8 | a create DTO field holds the supplied value, or '' when none was supplied |
| UserDtos.CreateDtoKeys | src/modules/users/dto/create-user.dto.ts:6-8 | a create DTO holds only user fields exactly when the request data does |
| UserDtos.CreateObjectAcceptance | src/modules/users/dto/create-user.dto.ts:10-37 | the create schema accepts an object exactly when it has valid name, email and password and nothing else |
| UserDtos.CreateAcceptance | src/modules/users/dto/create-user.dto.ts:5-37 | a create DTO built from request data validates exactly when that data is a valid create body |
| UserDtos.CreateMissingFieldIsRequired | src/modules/users/dto/create-user.dto.ts:6-8 | a field left out of a create body is reported as required |
| UserDtos.CreateReportsEveryField | src/modules/users/dto/create-user.dto.ts:10-37 | a body with a short name, a bad email and a short password gets exactly the three messages, in field order |
| UserDtos.ShortNameInCreate | src/modules/users/dto/create-user.dto.ts:11-18 | a short name gets the name length message |
| UserDtos.BadEmailInCreate | src/modules/users/dto/create-user.dto.ts:20-27 | an email failing the check gets "Invalid email format" |
| UserDtos.ShortPasswordInCreate | src/modules/users/dto/create-user.dto.ts:29-36 | a short password gets the password length message |
| UserDtos.ThreeWrongFields | src/modules/users/dto/create-user.dto.ts:10-37 | a concrete body meets all three failures |
| UserDtos.UpdateDtoIsData | src/modules/users/dto/update-user.dto.ts:5-8 | an update DTO is exactly the request data |
| UserDtos.UpdateAcceptance | src/modules/users/dto/update-user.dto.ts:10-33 | an update body validates exactly when each given field is valid, nothing else is given and at least one field is |
| UserDtos.UpdateNeedsAField | src/modules/users/dto/update-user.dto.ts:31-33 | an empty update body gets exactly the object-level message, filed under the empty key |
| UserDtos.UnknownKeyReported | src/modules/users/dto/create-user.dto.ts:10 | an undeclared key in a create or update body is reported as not allowed |
| UserDtos.InheritedNotDeclared | src/modules/users/dto/create-user.dto.ts:10 | no inherited member name is a declared user field |
| UserDtos.InheritedKeyThrows | src/shared/dto/base.dto.ts:17-20 | a create or update body with a key named like an inherited member yields a violation filed under that name, so grouping it throws |
| UserDtos.MissingId | src/modules/users/dto/user-params.dto.ts:6-19 | a params object without id gets "ID is required", but a params DTO without id gets "ID must be greater than 0" |
| UserDtos.ParamsAcceptance | src/modules/users/dto/user-params.dto.ts:6-19 | a params DTO validates exactly when its id is a whole number >= 1 and it has no other key |
| BaseDto.JoinPath | src/shared/dto/base.dto.ts:18 | the joined path of no segment is empty, of one segment is that segment's text |
| BaseDto.JoinPathAppend | src/shared/dto/base.dto.ts:18 | joining one more segment appends a dot and that segment's text |
| BaseDto.JoinPathCollides | src/shared/dto/base.dto.ts:18 | a key containing a dot is grouped with the nested path it spells |
| BaseDto.DetailKeys | src/shared/dto/base.dto.ts:18 | the joined path of every detail, in detail order |
| BaseDto.KeyOrderMeaning | src/shared/dto/base.dto.ts:17-22 | a key is grouped exactly when some detail carries it, exactly when some message is filed under it |
| BaseDto.FileMessage | src/shared/dto/base.dto.ts:19-20 | filing a message throws exactly when its key is not an own property but an inherited member name; otherwise it files the message under its own key |
| BaseDto.FileOwnGet | src/shared/dto/base.dto.ts:19-20 | filing a message under its own key appends it to that key's list, creating the list if needed, and leaves other keys alone |
| BaseDto.FileOwnShape | src/shared/dto/base.dto.ts:19-20 | filing a message under its own key keeps keys unique, appends a new key last and adds exactly one message |
| BaseDto.GroupOwnStep | src/shared/dto/base.dto.ts:17-22 | filing one more detail under its own key keeps the grouping exact |
| BaseDto.GroupStep | src/shared/dto/base.dto.ts:17-22 | one fold step throws exactly for an inherited name not grouped yet, and otherwise keeps the grouping exact |
| BaseDto.GroupFold | src/shared/dto/base.dto.ts:17-22 | after steps that did not throw, the next step throws exactly when its key is an inherited name |
| BaseDto.GroupedOwn | src/shared/dto/base.dto.ts:17-22 | grouping through own properties only groups every detail exactly, whatever its key |
| BaseDto.InheritedDetail | src/shared/dto/base.dto.ts:19-20 | one detail filed under an inherited name makes the grouping throw |
| BaseDto.UnknownInheritedKey | src/shared/dto/base.dto.ts:13-20 | an undeclared key named like an inherited member yields a detail whose grouping throws |
| BaseDto.GroupDetails | src/shared/dto/base.dto.ts:17-22 | the reduce throws exactly when some detail's key is an inherited name, at the first such detail; otherwise it groups every detail: one entry per distinct path in order of first appearance, each with exactly its messages in order |
| BaseDto.Validate | src/shared/dto/base.dto.ts:8-26 | null exactly when the schema passes; on a validation error the grouped details, or the grouping's TypeError when a key is an inherited name; any other error re-thrown |
| BaseDto.RunSchema | src/shared/dto/base.dto.ts:13 | the schema rejects exactly when there are violations, and with those violations |
| BaseDto.ValidateDto | src/shared/dto/base.dto.ts:8-26 | validation returns null exactly when there is no violation; otherwise every violation grouped under its path, or a thrown TypeError exactly when a violation's path is an inherited name |
| BaseDto.FromRequest | src/shared/dto/base.dto.ts:28-35 | a DTO from request data holds each supplied value, keeps defaults elsewhere, and lists default keys then new keys |
| Users.RowsOf | src/modules/users/user.service.ts:24 | the listed rows are the stored users in listing order |
| Users.FindByEmail | src/modules/users/user.service.ts:66-68 | a found user is stored with that email; nothing is found when no listed row has it |
| Users.ParseUserId | src/modules/users/user.service.ts:128-134 | the only failure is "Invalid user ID" |
| Users.Remove | src/modules/users/user.service.ts:114 | the ids left are those that were there, less the deleted one |
| Users.UserService.constructor | src/modules/users/user.service.ts:16-18 | a new service works on the user table the data source holds: any table meeting the service's invariant (ids as keys, unique non-empty emails, ascending listing order), left as it is |
| Users.CreateStep | src/modules/users/user.service.ts:60-76 | a refused create leaves the table unchanged and fails with 400 or 409 only; a successful one takes the next id |
| Users.UpdateStep | src/modules/users/user.service.ts:81-107 | a refused update leaves the table unchanged and fails with 400, 404, 409 or the store's refusal only; a successful one reports true |
| Users.DeleteStep | src/modules/users/user.service.ts:112-121 | a refused delete leaves the table unchanged and fails with 400 or 404 only; a successful one reports true |
| Users.UserService.GetAllUsers | src/modules/users/user.service.ts:23-25 | every stored user, each once, in ascending id order |
| Users.UserService.GetUsersPaginated | src/modules/users/user.service.ts:32-43 | the page of rows from the offset, at most limit of them, and the size of the whole table |
| Users.UserService.GetUserById | src/modules/users/user.service.ts:48-55 | 400 for an unparsable id; otherwise the stored user with that id, or null when there is none |
| Users.UserService.Create | src/modules/users/user.service.ts:60-76 | create keeps the table valid and performs CreateStep: 400 without name or email, 409 for a taken email, else a new row |
| Users.UserService.Update | src/modules/users/user.service.ts:81-107 | update keeps the table valid and performs UpdateStep: 400, 404, 409, the store's refusal, or the patched row |
| Users.UserService.Delete | src/modules/users/user.service.ts:112-121 | delete keeps the table valid and performs DeleteStep: 400, 404 with no change, or the row removed |
| Users.RowsFacts | src/modules/users/user.service.ts:24 | the listed rows are the stored users, each once, in ascending id order |
| Users.TableSize | src/modules/users/user.service.ts:36-40 | the table's size equals the number of listed ids |
| Users.FindByEmailMeaning | src/modules/users/user.service.ts:66-68 | the lookup by email finds a user exactly when some stored user has that email |
| Users.AbsentIdUnlisted | src/modules/users/user.service.ts:114-118 | deleting an id no user has changes nothing |
| Users.RemoveIncreasing | src/modules/users/user.service.ts:114 | removing an id keeps the listing order ascending |
| Users.CreateRequiresNameAndEmail | src/modules/users/user.service.ts:61-63 | create fails with 400 exactly when name or email is missing or empty, and a failed create changes nothing |
| Users.CreateSucceeds | src/modules/users/user.service.ts:60-76 | create succeeds exactly when name and email are non-empty and no stored user has the email |
| Users.CreateRejectsTakenEmail | src/modules/users/user.service.ts:66-72 | with a name and an email, create fails with 409 exactly when a stored user has the email |
| Users.CreateAddsOne | src/modules/users/user.service.ts:74-75 | a successful create adds one user under a fresh id with the given fields, listed last, every other user unchanged |
| Users.CreateKeepsValid | src/modules/users/user.service.ts:60-76 | create keeps ids, listing order and email uniqueness intact |
| Users.CreateTwiceConflicts | src/modules/users/user.service.ts:66-72 | creating a second user with the same email fails with 409 |
| Users.UpdateOfAbsentId | src/modules/users/user.service.ts:85-91 | updating an absent id fails with 404 and changes nothing |
| Users.UpdateEmailConflict | src/modules/users/user.service.ts:94-102 | an update fails with 409 exactly when it gives a new non-empty email another user has; the table is unchanged |
| Users.UpdateChangesOnlyGivenFields | src/modules/users/user.service.ts:105-106 | a successful update rewrites exactly the given fields of that one user, reports true, and keeps everything else |
| Users.UpdateWithoutFields | src/modules/users/user.service.ts:105 | an update with no fields is refused by the store and changes nothing |
| Users.UpdateSucceeds | src/modules/users/user.service.ts:81-107 | update reports true exactly when the id names a stored user, some field is given, and a new non-empty email is not taken |
| Users.UpdateKeepsValid | src/modules/users/user.service.ts:81-107 | update keeps ids, listing order and email uniqueness intact |
| Users.ReplaceKeepsEmailsDistinct | src/modules/users/user.service.ts:94-106 | replacing a user keeps emails unique when the new email is empty, unchanged or unused |
| Users.DeleteRemovesOne | src/modules/users/user.service.ts:112-121 | a successful delete reports true and removes exactly that user; deleting it again gives 404 and looking it up gives null |
| Users.DeleteSucceeds | src/modules/users/user.service.ts:112-121 | delete reports true exactly when the id parses to a stored user |
| Users.DeleteOfAbsentId | src/modules/users/user.service.ts:116-118 | deleting an absent id fails with 404 and changes nothing |
| Users.DeleteKeepsValid | src/modules/users/user.service.ts:112-121 | delete keeps ids, listing order and email uniqueness intact |
| Users.RemoveKeepsValid | src/modules/users/user.service.ts:114 | dropping one id from the rows and the key order keeps the table invariant |
| Users.ParseUserIdOfRendered | src/modules/users/user.service.ts:128-134 | a rendered integer id, with any non-digit suffix, or a numeric id parses to that integer |
| Users.ParseUserIdRejects | src/modules/users/user.service.ts:129-132 | a string id is refused exactly when no digit follows its white space and sign |
| Users.PageMeaning | src/modules/users/user.service.ts:36-40 | a page holds at most limit rows: the rows from the offset, as many as remain |
| Users.ConsecutivePages | src/modules/users/user.service.ts:36-40 | two consecutive pages of one size make up the page of twice that size |
| Users.ServiceFailuresAreClientErrors | src/modules/users/user.service.ts:62 | every AppError the service throws has a 4xx code and is reported with status 'fail' |

## Findings

| source | as written | input that shows it | evidently intended | confidence | as-written member | corrected member |
|---|---|---|---|---|---|---|
| src/shared/dto/base.dto.ts:17-22 | the messages are grouped in a plain `{}`; `acc[key] \|\| []` reads an inherited member such as `constructor`, and `push` on it throws a TypeError, answered with 500 | create body `{"name":"Al","email":"a@b.co","password":"secret1","constructor":1}` | a 400 listing `"constructor" is not allowed` under the key `constructor`, as a prototype-free accumulator gives | high, not executed | UserDtos.InheritedKeyThrows | BaseDto.GroupedOwn |

The model keeps the code's behaviour in `BaseDto.GroupDetails`, `BaseDto.Validate` and `BaseDto.ValidateDto`. `BaseDto.GroupedOwn` is the intended grouping, proved exact for every list of violations.

## Left out

- The controller, routes, validation middleware, logger, database connection and configuration are not part of this model. The validation middleware only chains `fromRequest` and `validate`.
- src/modules/users/schemas/user.schemas.ts is not part of this model. No core file uses it.
- ErrorHandler.SendErrorDev: the serialized error part holds only statusCode, status and isOperational. Other own enumerable properties a library error carries, such as body-parser's `expose`, `type` and `body`, are not modelled, and neither is the order of the JSON keys.
- `Number(req.query.page)` and `Number(req.query.limit)` are integers or NaN (`None`). Fractional values, infinities and query values given as arrays are not modelled.
- `new URL(...)` normalisation of the base URL and path is not modelled. The link is the plain concatenation.
- The schema library's coercion of an `id` string to a number is not modelled. The id's value is given as a number or as another value. A fractional id is a `real`.
- The email syntax check is the uninterpreted parameter `isEmail`.
- `Object.assign` with a source key `__proto__` sets the prototype instead of copying. That is not modelled; the key is copied like any other.
- JsObject.Get: reads own properties only. Inherited members are modelled where the code reads them, in `BaseDto.FileMessage`, through the fixed list `BaseDto.InheritedNames` of `Object.prototype`'s members.
- Precision limits of JavaScript numbers (integers above 2^53) are not modelled. Integers are unbounded.
- Users.UserService.GetUsersPaginated: requires limit >= 1 and skip >= 0. That is what `getPaginationParams` always produces; the store's treatment of other values is not modelled.
- The extra find options of `getUsersPaginated` (`PaginationOptions`: filters, ordering, relations) are not modelled. The call is modelled without them.
- Users.FindByEmail: compares emails exactly. A database collation that ignores case is not modelled.
- A `Partial<User>` carrying an `id` or other columns is not modelled. Only name, email and password pass through. The database's value for a password that was not supplied is not modelled; it stays absent.
- Concurrency: the service's checks and writes are separate database calls. Interleaved requests, such as two creates with the same email, are not modelled; operations run one after another.
- Listing order: the store is taken to return rows in ascending id order. The source gives no `ORDER BY`.
- JsText.Utf16Length: the code-unit count is modelled, not surrogate pairs as separate characters.
- Express's `res.status().json()` and `res.render()` calls are modelled as the response value they would send. The stack trace, `next` and the render engine are not modelled.
- JsObject.PutKeys: states the key order in creation order. What `Object.keys` and JSON output show is `EnumerationOrder` of it. The two coincide when no key is an array index (`JsObject.EnumerationOrderFacts`).
- JsObject.AssignedKeys: states the key order in creation order; the enumerated order is `EnumerationOrder` of it, as for PutKeys. `Object.assign` copies the source in its enumeration order, not its creation order. Since the source's keys are unique, the values copied are the same either way.
- JsObject.AssignedDisjoint: creation order, as for AssignedKeys.
- JsObject.Assign: copies in creation order, as for AssignedKeys.
- BaseDto.FileOwnShape: creation order of the grouped keys. The JSON response lists them in `EnumerationOrder`, so a path such as `0` would be listed first.
- BaseDto.GroupDetails: creation order, as for FileOwnShape.
- BaseDto.FromRequest: creation order, as for AssignedKeys.
- UserDtos.UpdateDtoIsData: assumes the TypeScript setting in which fields that are only declared create no own property. With `useDefineForClassFields` the three fields would be own properties holding `undefined`. Then `{}` would have three keys, pass the update schema's `min(1)`, and reach the store's refusal of an empty update (a 500).
- UserDtos.UpdateNeedsAField: the same assumption as UpdateDtoIsData.
- UserDtos.UpdateAcceptance: the same assumption as UpdateDtoIsData.
