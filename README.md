# ember-rest in Dafny

A model of ember-rest, a small library that maps Ember.js objects to RESTful
HTTP resources. It has two parts:

- **`Ember.Resource`** is a record of property values. A resource type
  configures it with a base `url`, a wrapper `name` and an ordered
  `properties` whitelist. The model covers:
  - its URL, derived from the base URL and the `id` property (`_url`);
  - serialization to `{name: {prop: value, ...}}`;
  - deserialization of every own key of a JSON value;
  - copying the whitelisted properties from another record;
  - the decisions `save` and `destroy` make before they call the transport:
    validation short-circuit, POST or PUT, target URL and body;
  - what a successful save does to the record.
- **`Ember.ResourceController`** is an ordered collection of records of one
  type. The model covers `load`, `loadAll`, the success continuation of
  `findAll` (replace everything with the response array) and the
  controller's URL, which falls back to the type's base URL.

Files:

- `json.dfy` (module `Json`): JavaScript values, including `undefined`.
  It defines truthiness, `String(v)` (used when the id is appended to the
  URL) and the own keys that `for (prop in json)` with `hasOwnProperty`
  visits: an object's keys, or an array's or string's indices.
- `resource.dfy` (module `Resources`): three parts.
  - The resource type, a class of constants that is readable without any
    record.
  - Pure functions for `_url`, `serialize`, `deserialize`,
    `duplicateProperties`, `save` and `destroy`, with lemmas about them.
  - The class `Resource`, whose methods update the record's property map in
    place. Each method is proved against those functions.
- `controller.dfy` (module `Controllers`): the class `ResourceController`.
  Its `content` is a sequence of `Resource` objects, and its methods are
  proved against `Loaded`, which says what each loaded record holds.
- `wrappers.dfy`: the `Option` type.

The transport (`jQuery.ajax`) is not part of the model. `save`, `destroy`
and `findAll` are modelled as:

- a request descriptor: method, URL and optional body;
- a separate step that applies a successful response.

Two facts about the code that the model keeps:

- `deserialize` writes every own key of the JSON, whitelisted or not.
- The identity property is the literal `"id"`.

## Model

| member | source | states |
|---|---|---|
| `Json.NatToDecimal` | src/ember-rest.js:156 | the decimal text of a number is non-empty, all digits, and has no leading zero |
| `Json.ParseNatToDecimal` | src/ember-rest.js:156 | reading the decimal text of a number back gives that number |
| `Json.IntToDecimal` | src/ember-rest.js:156 | the text of an integer starts with '-' exactly when the integer is negative |
| `Json.IntToDecimalInjective` | src/ember-rest.js:156 | distinct integer ids have distinct string forms |
| `Json.Truthy` | src/ember-rest.js:111 | a value is falsy exactly when it is undefined, null, false, 0 or ""; this decides `if (error)` and `if (json)` (line 127) |
| `Json.ToJsString` | src/ember-rest.js:156 | `String(v)`: undefined, null and booleans spelled as JavaScript prints them, integers in decimal, strings as themselves, an empty array as "", any object as "[object Object]" |
| `Json.ArrayToStringJoin` | src/ember-rest.js:156 | for every array, `String` is the comma join of its elements: a one-element array prints as its element's text, and appending an element to a non-empty array appends "," and that element's text, null and undefined elements being empty |
| `Json.ArrayToStringExample` | src/ember-rest.js:156 | an instance of the join: [undefined, 1, [2, null]] prints as ",1,2," |
| `Json.OwnEntries` | src/ember-rest.js:81-82 | for-in with hasOwnProperty visits an object's own keys with their values, the indices "0".."n-1" of an array or string with their elements (one-character strings for a string), and nothing for undefined, null, booleans and numbers |
| `Json.IndexEntriesAt` | src/ember-rest.js:81-82 | for-in over an array or string visits key "i" for each index i, holding element i |
| `Json.IndexEntriesKey` | src/ember-rest.js:81-82 | every key for-in visits on an array or string is the decimal spelling of an index |
| `Resources.ResourceType.constructor` | src/ember-rest.js:32-35 | a resource type carries its url, name, properties and optional validate as given |
| `Resources.Get` | src/ember-rest.js:71 | `get(prop)` is the property's value, and undefined for a property the record has never set |
| `Resources.IsNew` | src/ember-rest.js:107 | a record is new exactly when it has no "id" property or its "id" is undefined |
| `Resources.Url` | src/ember-rest.js:151-159 | the URL is the bare base URL exactly when the id is undefined; otherwise it is base + "/" followed by the id's string form |
| `Resources.UrlDistinguishesNumericIds` | src/ember-rest.js:151-159 | two records with numeric ids have the same URL if and only if they have the same id |
| `Resources.ContactUrlExample` | src/ember-rest.js:151-159 | base "/contacts" with id 1 gives "/contacts/1" |
| `Resources.SerializeProperty` | src/ember-rest.js:70-72 | the default serialized form of a property is its current value as `get` reads it, undefined when unset |
| `Resources.Payload` | src/ember-rest.js:58-61 | the inner object has exactly the whitelisted keys, each holding the property's current value |
| `Resources.Serialize` | src/ember-rest.js:53-72 | the result has exactly one key, the type's name; under it are exactly the whitelisted properties with their values; id and other properties appear only if whitelisted |
| `Resources.ContactSerializeExample` | src/ember-rest.js:53-63 | a contact {id 1, Joe, Blow} whitelisting first_name and last_name serializes to {contact: {first_name: Joe, last_name: Blow}} |
| `Resources.Deserialized` | src/ember-rest.js:79-95 | every own key of the JSON is written with its value, "id" and non-whitelisted keys included; every other property keeps its value |
| `Resources.SerializeRoundTrip` | src/ember-rest.js:53-95 | deserializing a record's serialized payload into a fresh record yields exactly the whitelisted properties with equal values, and it serializes back to the same JSON |
| `Resources.Duplicated` | src/ember-rest.js:40-46 | copying sets each whitelisted property to the source's value (undefined included) and leaves every other property unchanged |
| `Resources.DuplicateIdempotent` | src/ember-rest.js:40-46 | copying the same properties from the same source twice gives the same record as copying once |
| `Resources.DuplicateSelfIdempotent` | src/ember-rest.js:40-46 | a record copying its own whitelisted properties from itself twice ends as after the first copy, although the first copy gave absent properties the value undefined |
| `Resources.SaveRequest` | src/ember-rest.js:105-124 | a defined validate with a truthy error gives that error and no request; otherwise the request carries the serialized record to the record's URL, POST iff the id is undefined, PUT otherwise |
| `Resources.SaveCreatesAtBaseUrl` | src/ember-rest.js:105-124 | a save request is a POST exactly when it targets the bare base URL |
| `Resources.InvalidSaveExample` | src/ember-rest.js:109-117 | a validate returning "bad" stops the save with the error "bad" |
| `Resources.DestroyRequest` | src/ember-rest.js:135-143 | destroy is a DELETE with no body, to the base URL exactly for a new record and to base + "/" + id otherwise; the record is not touched |
| `Resources.WrapperKeyAsWritten` | src/ember-rest.js:57-60 | the wrapper key the code reads is the type's name unless the record has its own "name" property |
| `Resources.SerializeAsWritten` | src/ember-rest.js:53-63 | serialize as written has the single key read through the record; under it is the same payload as the type-configured Serialize, so shadowing moves the wrapper and not the payload; the two agree exactly when the key is the type's name |
| `Resources.NameFieldMovesWrapper` | src/ember-rest.js:53-95 | a contact loaded from {"id": 1, "name": "Joe"} serializes as written under "Joe", not "contact" |
| `Resources.UrlAsWritten` | src/ember-rest.js:151-159 | without a "url" property on the record, the URL equals the type-configured URL; with one, a new record's URL is that property's value itself, and for an existing record with a string "url" the URL is that string, "/" and the id's string form |
| `Resources.UrlFieldRedirectsSave` | src/ember-rest.js:151-159 | a record loaded from {"id": 7, "url": "/contacts/7"} gets "/contacts/7/7" as written, against "/contacts/7" |
| `Resources.Resource.constructor` | src/ember-rest.js:180 | `type.create()` gives a record of that type with no properties set |
| `Resources.Resource.DeserializeProperty` | src/ember-rest.js:93-95 | sets one property to the value and changes no other |
| `Resources.Resource.Deserialize` | src/ember-rest.js:79-86 | the record's new properties are Deserialized(old properties, json); the method returns the record itself |
| `Resources.Resource.DuplicateProperties` | src/ember-rest.js:40-46 | the record's new properties are Duplicated(whitelist, old properties, source's old properties), also when the source is the record itself |
| `Resources.Resource.ApplySaveResponse` | src/ember-rest.js:125-129 | a truthy response is deserialized into the record; a falsy one (empty, null, false, 0) leaves it unchanged |
| `Controllers.ResourceController.constructor` | src/ember-rest.js:172-174 | a new controller has the given type and URL override and no records |
| `Controllers.ResourceController.Url` | src/ember-rest.js:216-221 | the controller's own URL if set, else the type's base URL; no record is read |
| `Controllers.ResourceController.FindAllRequest` | src/ember-rest.js:195-201 | findAll is a GET of the controller's URL with no body |
| `Controllers.Loaded` | src/ember-rest.js:179-190 | loading a JSON array yields one record per element, in array order, record i holding exactly element i deserialized into an empty record |
| `Controllers.ResourceController.Load` | src/ember-rest.js:179-182 | appends exactly one fresh record of the controller's type, holding Deserialized(empty, json); earlier records stay in order and unchanged |
| `Controllers.ResourceController.LoadAll` | src/ember-rest.js:187-190 | appends one fresh record per array element, in array order, no two elements sharing a record object; earlier records stay in order and unchanged |
| `Controllers.ResourceController.ApplyFindAllResponse` | src/ember-rest.js:202-205 | afterwards the content is exactly one fresh record per response element, in order, all of them distinct objects, so updating one leaves the others as they are; no earlier record remains |
| `Controllers.FindAllListsWhereSaveCreates` | src/ember-rest.js:216-221 | without an override, findAll reads from the same URL a new record's save POSTs to |

## Left out

- Transport: `jQuery.ajax`, HTTP, JSON parsing of responses, and the `.done`/`.fail`/`.always` chaining of the returned handles are external calls. The model has request descriptors (SaveRequest, DestroyRequest, FindAllRequest) and the success steps (ApplySaveResponse, ApplyFindAllResponse). A failed request changes no local state, so it has no step.
- The failed handle that `save` returns on a validation error is the outcome `Invalid(error)`. The calls it makes on the failure and always continuations are not modelled.
- The body `jQuery.ajax` sends is the serialized value. Its form encoding by jQuery is not modelled.
- Property-change batching (`beginPropertyChanges` / `endPropertyChanges`), observers, `Ember.required()` and the `ArrayController` machinery have no behaviour the model can state.
- `validate` is an arbitrary total function of the record's properties. A `validate` that is defined but not a function (a TypeError in JavaScript) is not modelled.
- Resources.SaveRequest: `validate` is assumed not to change the record. The code computes `isNew` (line 107) before it calls `validate()` (line 110), and reads the URL and the body afterwards, so a `validate` that sets or clears the id could send a POST to an id URL or a PUT to the bare base URL. The model cannot express that case.
- `serialize`, `serializeProperty`, `deserialize` and `deserializeProperty` can be overridden by subclasses. Only the default bodies are modelled.
- Numbers are integers. Fractions, NaN, infinities and the exponent forms of `String(number)` are not modelled.
- JavaScript objects keep their keys in insertion order. The model uses maps, so the order of keys in the serialized object is not captured.
- Resources.SaveRequest, Resources.DestroyRequest, Resources.Serialize, Resources.Url: these read `url` and `name` from the resource type. They are the corrected half of the Findings. The code reads `this.url` and `this.name`, which a record's own "url" or "name" property shadows. For such a record the code behaves as SerializeAsWritten and UrlAsWritten describe; no as-written save or destroy request is modelled.
- Resources.Get, Resources.Resource.constructor, Controllers.ResourceController.Load: a property the record has not set itself reads as undefined. In the code, `get` falls through to the prototype, so it returns defaults given to `extend()`, computed properties and the configuration keys themselves. So a record of a type with defaults does not start empty, and `Load`'s `Deserialized(map[], json)` misstates its inherited values. For example, a fresh record whose whitelist contains "name" serializes in the code with the type's name as that property's value.
- Json.OwnEntries: a string is split into Unicode scalar values. JavaScript's for-in over a string visits UTF-16 code units, so the two differ for characters outside the Basic Multilingual Plane.
- Resources.SerializeAsWritten, Resources.Duplicated, Resources.Resource.DuplicateProperties: the whitelist is read from the type. A "properties" property on the record would shadow `this.properties`, which both `serialize` and `duplicateProperties` read in the code; that is not modelled. Other JSON keys that shadow methods (such as "save") are not modelled either.
- Controllers.ResourceController.ApplyFindAllResponse: the response is taken to be a JSON array. For a non-array response the code behaves as follows, and none of it is modelled:
  - an object without `length` loads nothing;
  - `null` throws after the content was emptied.
- The initial `content: []` sits on the prototype and could be shared between controllers. Here `content` belongs to each instance.
- Records made with `create(props)` and initial properties are not modelled. `load` calls `create()` with no arguments, so records start empty.
- `clearAll`, `findResource`, `saveResource`, `destroyResource` and `_resourceUrl` appear only in the tests. They are not defined in `src/ember-rest.js` and are not part of this model.

## Findings

| source | as written | input that shows it | evidently intended | confidence | as-written member | corrected member |
|---|---|---|---|---|---|---|
| src/ember-rest.js:57-60 | the wrapper key is read as `this.name`, and `deserialize` (line 94) writes JSON keys onto the same object | type name "contact", whitelist ["name"], record loaded from {"id": 1, "name": "Joe"}: serialize gives {"Joe": {"name": "Joe"}} | the wrapper key stays the type's name, {"contact": {"name": "Joe"}} | medium, not executed | `Resources.NameFieldMovesWrapper` | `Resources.SerializeRoundTrip` |
| src/ember-rest.js:152-156 | the base URL is read as `this.url`, which a "url" key in a response overwrites | base "/contacts", record loaded from {"id": 7, "url": "/contacts/7"}: the next save PUTs to "/contacts/7/7" | the type's base URL plus the id, "/contacts/7" | medium, not executed | `Resources.UrlFieldRedirectsSave` | `Resources.Url` |
