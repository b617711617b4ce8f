/**
 * `Ember.Resource`: a record whose properties round-trip to a RESTful
 * endpoint.  A resource type fixes the base `url`, the wrapper `name` used
 * when serializing and the ordered `properties` whitelist; a record holds
 * its current property values, among them its identity under "id".
 *
 * The decisions `save` and `destroy` take before handing a request to the
 * transport are pure functions here (SaveRequest, DestroyRequest); what
 * happens to a record when a save succeeds is the method
 * Resource.ApplySaveResponse.
 */
module Resources {
  import opened Wrappers
  import opened Json

  /** A record's property values; a missing key reads as `undefined`. */
  type Fields = map<string, Value>

  /** A user-supplied `validate()`: returns an error value, falsy when valid. */
  type Validator = Fields -> Value

  /**
   * A subclass made with `Ember.Resource.extend({...})`: the configuration
   * every record of the type shares, readable without any instance.
   */
  class ResourceType {
    const url: string
    const name: string
    const properties: seq<string>
    const validate: Option<Validator>

    constructor (url: string, name: string, properties: seq<string>, validate: Option<Validator>)
      ensures this.url == url && this.name == name && this.properties == properties
      ensures this.validate == validate
    {
      this.url := url;
      this.name := name;
      this.properties := properties;
      this.validate := validate;
    }
  }

  /** `record.get(prop)`: the property's value, `undefined` when it was never set. */
  function Get(fields: Fields, prop: string): (v: Value)
    ensures prop in fields ==> v == fields[prop]
    ensures prop !in fields ==> v == Undefined
  {
    if prop in fields then fields[prop] else Undefined
  }

  /** A record is new when its "id" reads as `undefined`. */
  predicate IsNew(fields: Fields)
    ensures IsNew(fields) <==> "id" !in fields || fields["id"] == Undefined
  {
    Get(fields, "id") == Undefined
  }

  // ---------------------------------------------------------------- _url

  /**
   * `_url()`: the record's URL is the bare base URL exactly for new records;
   * otherwise it is the base URL, "/" and the id's string form.
   */
  function Url(t: ResourceType, fields: Fields): (u: string)
    ensures u == t.url <==> IsNew(fields)
    ensures !IsNew(fields) ==> t.url + "/" <= u && u[|t.url| + 1..] == ToJsString(Get(fields, "id"))
  {
    if IsNew(fields) then t.url else t.url + "/" + ToJsString(Get(fields, "id"))
  }

  /** Two existing records with numeric ids share a URL only when they share the id. */
  lemma UrlDistinguishesNumericIds(t: ResourceType, f1: Fields, f2: Fields)
    requires Get(f1, "id").Num? && Get(f2, "id").Num?
    ensures Url(t, f1) == Url(t, f2) <==> Get(f1, "id") == Get(f2, "id")
  {
    if Url(t, f1) == Url(t, f2) {
      IntToDecimalInjective(Get(f1, "id").n, Get(f2, "id").n);
    }
  }

  /** A record of a type based at "/contacts" whose id is 1 lives at "/contacts/1". */
  lemma ContactUrlExample(t: ResourceType, fields: Fields)
    requires t.url == "/contacts" && Get(fields, "id") == Num(1)
    ensures Url(t, fields) == "/contacts/1"
  {
  }

  // ---------------------------------------------------- serialize / deserialize

  /** `serializeProperty(prop)`: by default the property's current value. */
  function SerializeProperty(fields: Fields, prop: string): (v: Value)
    ensures v == Get(fields, prop)
  {
    Get(fields, prop)
  }

  /** The inner object `serialize` builds: one entry per whitelisted property. */
  function Payload(properties: seq<string>, fields: Fields): (m: map<string, Value>)
    ensures forall p :: p in m <==> p in properties
    ensures forall p :: p in m ==> m[p] == Get(fields, p)
  {
    if properties == [] then map[]
    else
      var prop := properties[|properties| - 1];
      Payload(properties[..|properties| - 1], fields)[prop := SerializeProperty(fields, prop)]
  }

  /**
   * `serialize()`: an object with the single key `name`, under which every
   * whitelisted property maps to its serialized value and nothing else
   * appears.
   */
  function Serialize(t: ResourceType, fields: Fields): (r: Value)
    ensures r.Obj? && r.props.Keys == {t.name} && r.props[t.name].Obj?
    ensures forall p :: p in r.props[t.name].props <==> p in t.properties
    ensures forall p :: p in t.properties ==> r.props[t.name].props[p] == Get(fields, p)
  {
    Obj(map[t.name := Obj(Payload(t.properties, fields))])
  }

  /**
   * A contact with first and last name and an id serializes to its two
   * whitelisted names only.
   */
  lemma ContactSerializeExample(t: ResourceType, fields: Fields)
    requires t.name == "contact" && t.properties == ["first_name", "last_name"]
    requires fields == map["id" := Num(1), "first_name" := Str("Joe"), "last_name" := Str("Blow")]
    ensures Serialize(t, fields)
         == Obj(map["contact" := Obj(map["first_name" := Str("Joe"), "last_name" := Str("Blow")])])
  {
    var inner := Serialize(t, fields).props["contact"].props;
    assert inner.Keys == {"first_name", "last_name"};
    assert inner == map["first_name" := Str("Joe"), "last_name" := Str("Blow")];
  }

  /**
   * The record after `deserialize(json)`: every own key of `json` is written
   * with its value (whether or not it is whitelisted, "id" included) and
   * every other property keeps its value.
   */
  function Deserialized(fields: Fields, json: Value): (r: Fields)
    ensures forall k :: k in r <==> k in fields || k in OwnEntries(json)
    ensures forall k :: k in r ==> r[k] == if k in OwnEntries(json) then OwnEntries(json)[k] else fields[k]
  {
    fields + OwnEntries(json)
  }

  /**
   * Serializing a record and deserializing the wrapped payload into a fresh
   * record of the same type reproduces every whitelisted property, adds no
   * other property, and serializes back to the same JSON.
   */
  lemma SerializeRoundTrip(t: ResourceType, fields: Fields)
    ensures var copy := Deserialized(map[], Serialize(t, fields).props[t.name]);
      (forall k :: k in copy <==> k in t.properties) &&
      (forall p :: p in t.properties ==> Get(copy, p) == Get(fields, p)) &&
      Serialize(t, copy) == Serialize(t, fields)
  {
    var copy := Deserialized(map[], Serialize(t, fields).props[t.name]);
    assert Payload(t.properties, copy) == Payload(t.properties, fields);
  }

  // --------------------------------------------------------- duplicateProperties

  /**
   * `duplicateProperties`: copying `properties` from `source` one by one, in
   * order, sets each listed property to the source's value (`undefined`
   * included) and leaves every other property as it was.
   */
  function Duplicated(properties: seq<string>, fields: Fields, source: Fields): (r: Fields)
    ensures forall k :: k in r <==> k in fields || k in properties
    ensures forall k :: k in r ==> r[k] == if k in properties then Get(source, k) else fields[k]
  {
    if properties == [] then fields
    else
      var init := properties[..|properties| - 1];
      var prop := properties[|properties| - 1];
      assert forall k :: k in properties <==> k in init || k == prop;
      Duplicated(init, fields, source)[prop := Get(source, prop)]
  }

  /** Copying the same properties from the same source a second time changes nothing. */
  lemma DuplicateIdempotent(properties: seq<string>, fields: Fields, source: Fields)
    ensures var once := Duplicated(properties, fields, source);
      Duplicated(properties, once, source) == once
  {
  }

  /**
   * A record that copies its whitelisted properties from itself, twice: the
   * second copy reads the result of the first, in which absent properties
   * now hold undefined, and still changes nothing.
   */
  lemma DuplicateSelfIdempotent(properties: seq<string>, fields: Fields)
    ensures var once := Duplicated(properties, fields, fields);
      Duplicated(properties, once, once) == once
  {
  }

  // ------------------------------------------------------------ save / destroy

  datatype Verb = GET | POST | PUT | DELETE

  /** What is handed to the transport: method, URL and optional body. */
  datatype Request = Request(verb: Verb, url: string, data: Option<Value>)

  /** `save()` either fails locally with the validation error or sends a request. */
  datatype SaveOutcome = Invalid(error: Value) | Send(request: Request)

  /**
   * The decision `save()` takes: a defined `validate` returning a truthy
   * error stops it with that error and no request; otherwise the record's
   * JSON goes to its URL, by POST when it is new and by PUT when it is not.
   */
  function SaveRequest(t: ResourceType, fields: Fields): (o: SaveOutcome)
    ensures o.Invalid? <==> t.validate.Some? && Truthy(t.validate.value(fields))
    ensures o.Invalid? ==> o.error == t.validate.value(fields)
    ensures o.Send? ==> o.request.url == Url(t, fields) && o.request.data == Some(Serialize(t, fields))
    ensures o.Send? ==> (o.request.verb == POST <==> IsNew(fields))
    ensures o.Send? ==> (o.request.verb == PUT <==> !IsNew(fields))
  {
    var isNew := IsNew(fields);
    if t.validate.Some? && Truthy(t.validate.value(fields)) then
      Invalid(t.validate.value(fields))
    else
      Send(Request(if isNew then POST else PUT, Url(t, fields), Some(Serialize(t, fields))))
  }

  /**
   * A save creates at the collection URL and updates at a longer, per-record
   * URL: the request is a POST exactly when it targets the bare base URL.
   */
  lemma SaveCreatesAtBaseUrl(t: ResourceType, fields: Fields)
    ensures var o := SaveRequest(t, fields);
      o.Send? ==> (o.request.verb == POST <==> o.request.url == t.url)
  {
  }

  /** A validation error "bad" stops the save and is what the failure continuation receives. */
  lemma InvalidSaveExample(t: ResourceType, fields: Fields)
    requires t.validate.Some? && t.validate.value(fields) == Str("bad")
    ensures SaveRequest(t, fields) == Invalid(Str("bad"))
  {
  }

  /** `destroy()`: a DELETE of the record's URL, with no body; the record is untouched. */
  function DestroyRequest(t: ResourceType, fields: Fields): (r: Request)
    ensures r.verb == DELETE && r.data == None
    ensures r.url == t.url <==> IsNew(fields)
    ensures !IsNew(fields) ==> t.url + "/" <= r.url && r.url[|t.url| + 1..] == ToJsString(Get(fields, "id"))
  {
    Request(DELETE, Url(t, fields), None)
  }

  // ------------------------------------------- configuration read through the record

  /*
   * The code reads its configuration as `this.name` and `this.url`, the same
   * namespace `deserialize` writes every JSON key into.  A record loaded from
   * JSON that has a "name" or "url" field therefore no longer uses its type's
   * configuration.  The two functions below model that reading; the rest of
   * the model keeps the configuration on the type (Serialize, Url).
   */

  /** `this.name` as read by `serialize`: a "name" property shadows the type's wrapper name. */
  function WrapperKeyAsWritten(t: ResourceType, fields: Fields): (key: string)
    ensures "name" !in fields ==> key == t.name
  {
    if "name" in fields then ToJsString(fields["name"]) else t.name
  }

  /** `serialize()` with the wrapper key read through the record. */
  function SerializeAsWritten(t: ResourceType, fields: Fields): (r: Value)
    ensures r.Obj? && r.props.Keys == {WrapperKeyAsWritten(t, fields)}
    ensures r == Serialize(t, fields) <==> WrapperKeyAsWritten(t, fields) == t.name
    ensures r.props[WrapperKeyAsWritten(t, fields)] == Serialize(t, fields).props[t.name]
  {
    var key := WrapperKeyAsWritten(t, fields);
    assert key != t.name ==> t.name !in map[key := Obj(Payload(t.properties, fields))];
    Obj(map[key := Obj(Payload(t.properties, fields))])
  }

  /**
   * A contact whose whitelist contains "name", loaded from the server, is
   * afterwards serialized under its own name instead of under "contact".
   */
  lemma NameFieldMovesWrapper(t: ResourceType, fields: Fields)
    requires t.name == "contact" && t.properties == ["name"]
    requires fields == Deserialized(map[], Obj(map["id" := Num(1), "name" := Str("Joe")]))
    ensures SerializeAsWritten(t, fields) == Obj(map["Joe" := Obj(map["name" := Str("Joe")])])
    ensures SerializeAsWritten(t, fields) != Serialize(t, fields)
  {
  }

  /**
   * `_url()` with the base read through the record as `this.url`: a "url"
   * property replaces the base, and a new record gets that value back as is.
   */
  function UrlAsWritten(t: ResourceType, fields: Fields): (u: Value)
    ensures "url" !in fields ==> u == Str(Url(t, fields))
    ensures "url" in fields && IsNew(fields) ==> u == fields["url"]
    ensures "url" in fields && fields["url"].Str? && !IsNew(fields) ==>
      u.Str? && fields["url"].s + "/" <= u.s && u.s[|fields["url"].s| + 1..] == ToJsString(Get(fields, "id"))
  {
    var base := if "url" in fields then fields["url"] else Str(t.url);
    if IsNew(fields) then base else Str(ToJsString(base) + "/" + ToJsString(Get(fields, "id")))
  }

  /**
   * A record loaded from a response that carries its own absolute "url"
   * saves to that URL with the id appended a second time.
   */
  lemma UrlFieldRedirectsSave(t: ResourceType, fields: Fields)
    requires t.url == "/contacts"
    requires fields == Deserialized(map[], Obj(map["id" := Num(7), "url" := Str("/contacts/7")]))
    ensures UrlAsWritten(t, fields) == Str("/contacts/7/7")
    ensures Url(t, fields) == "/contacts/7"
  {
  }

  // ------------------------------------------------------------ the record

  /** An instance of a resource type. */
  class Resource {
    const rtype: ResourceType
    var fields: Fields

    /** `type.create()`: a record with no properties set. */
    constructor (t: ResourceType)
      ensures rtype == t && fields == map[]
    {
      rtype := t;
      fields := map[];
    }

    /** `deserializeProperty(prop, value)`: by default a plain `set`. */
    method DeserializeProperty(prop: string, value: Value)
      modifies this
      ensures fields == old(fields)[prop := value]
    {
      fields := fields[prop := value];
    }

    /** `deserialize(json)`: writes every own key of `json`; returns the record itself. */
    method Deserialize(json: Value) returns (self: Resource)
      modifies this
      ensures self == this
      ensures fields == Deserialized(old(fields), json)
    {
      var entries := OwnEntries(json);
      var pending := entries.Keys;
      while pending != {}
        invariant pending <= entries.Keys
        invariant forall k :: k in fields <==> k in old(fields) || (k in entries && k !in pending)
        invariant forall k :: k in fields ==>
          fields[k] == if k in entries && k !in pending then entries[k] else old(fields)[k]
        decreases pending
      {
        var prop :| prop in pending;
        DeserializeProperty(prop, entries[prop]);
        pending := pending - {prop};
      }
      self := this;
    }

    /**
     * `duplicateProperties(source)`: copies every whitelisted property from
     * `source`, which may be this very record.
     */
    method DuplicateProperties(source: Resource)
      modifies this
      ensures fields == Duplicated(rtype.properties, old(fields), old(source.fields))
    {
      var properties := rtype.properties;
      ghost var original := source.fields;
      for i := 0 to |properties|
        invariant fields == Duplicated(properties[..i], old(fields), original)
        invariant source != this ==> source.fields == original
        invariant source == this ==> forall p :: p in properties ==> Get(fields, p) == Get(original, p)
      {
        var prop := properties[i];
        assert properties[..i + 1][..i] == properties[..i];
        fields := fields[prop := Get(source.fields, prop)];
        if source == this {
          forall p | p in properties
            ensures Get(fields, p) == Get(original, p)
          {
          }
        }
      }
      assert properties[..|properties|] == properties;
    }

    /**
     * The success continuation of `save()`: a truthy response body is
     * deserialized into the record; an empty or null body leaves it as it was.
     */
    method ApplySaveResponse(json: Value)
      modifies this
      ensures fields == if Truthy(json) then Deserialized(old(fields), json) else old(fields)
    {
      if Truthy(json) {
        var _ := Deserialize(json);
      }
    }
  }
}
