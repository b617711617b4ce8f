/**
 * `Ember.ResourceController`: an ordered collection of records of one
 * resource type, filled from JSON and refreshed from the collection's
 * list endpoint.
 */
module Controllers {
  import opened Wrappers
  import opened Json
  import opened Resources

  /** The property maps of a sequence of records, in order. */
  ghost function FieldsOf(rs: seq<Resource>): (r: seq<Fields>)
    reads set x | x in rs
    ensures |r| == |rs|
    ensures forall i :: 0 <= i < |rs| ==> r[i] == rs[i].fields
  {
    if rs == [] then [] else FieldsOf(rs[..|rs| - 1]) + [rs[|rs| - 1].fields]
  }

  /** The records a JSON array loads into: element `i` deserialized into a fresh record. */
  function Loaded(json: seq<Value>): (r: seq<Fields>)
    ensures |r| == |json|
    ensures forall i :: 0 <= i < |json| ==> r[i] == Deserialized(map[], json[i])
  {
    seq(|json|, i requires 0 <= i < |json| => Deserialized(map[], json[i]))
  }

  /** Loading one more element of the array appends its record. */
  lemma LoadedSnoc(json: seq<Value>, i: nat)
    requires i < |json|
    ensures Loaded(json[..i + 1]) == Loaded(json[..i]) + [Deserialized(map[], json[i])]
  {
  }

  /** From index `lo` on, no record object appears twice in `rs`. */
  predicate DistinctFrom(rs: seq<Resource>, lo: nat) {
    forall i, j :: lo <= i < j < |rs| ==> rs[i] != rs[j]
  }

  /** Appending a record that is none of those from `lo` on keeps them distinct. */
  lemma DistinctAppend(rs: seq<Resource>, lo: nat, r: Resource)
    requires DistinctFrom(rs, lo)
    requires r !in rs
    ensures DistinctFrom(rs + [r], lo)
  {
  }

  class ResourceController {
    const rtype: ResourceType
    const url: Option<string>
    var content: seq<Resource>

    /** `ResourceController.extend({type: t, url: ...}).create()`: no records yet. */
    constructor (t: ResourceType, url: Option<string>)
      ensures rtype == t && this.url == url && content == []
    {
      rtype := t;
      this.url := url;
      content := [];
    }

    /** The records' current property values, in collection order. */
    ghost function Records(): seq<Fields>
      reads this, set x | x in content
    {
      FieldsOf(content)
    }

    /**
     * `_url()`: the controller's own URL when it has one, otherwise the
     * type's base URL, read from the type without any record.
     */
    function Url(): (u: string)
      ensures url.Some? ==> u == url.value
      ensures url.None? ==> u == rtype.url
    {
      if url.None? then rtype.url else url.value
    }

    /** The request `findAll()` hands to the transport: a GET of the collection URL. */
    function FindAllRequest(): (r: Request)
      ensures r.verb == GET && r.url == Url() && r.data == None
    {
      Request(GET, Url(), None)
    }

    /**
     * `load(json)`: a fresh record of the controller's type, deserialized
     * from `json`, is appended; the records already there stay, in order
     * and unchanged.
     */
    method Load(json: Value)
      modifies this
      ensures |content| == |old(content)| + 1 && content == old(content) + [content[|old(content)|]]
      ensures fresh(content[|old(content)|]) && content[|old(content)|].rtype == rtype
      ensures content[|old(content)|] !in old(content)
      ensures Records() == old(Records()) + [Deserialized(map[], json)]
    {
      var r := new Resource(rtype);
      var _ := r.Deserialize(json);
      content := content + [r];
    }

    /**
     * `loadAll(json)`: every element of the array loaded, in array order,
     * each into a record object of its own.
     */
    method LoadAll(json: seq<Value>)
      modifies this
      ensures |content| == |old(content)| + |json| && content[..|old(content)|] == old(content)
      ensures forall i :: |old(content)| <= i < |content| ==> fresh(content[i]) && content[i].rtype == rtype
      ensures DistinctFrom(content, |old(content)|)
      ensures Records() == old(Records()) + Loaded(json)
    {
      for i := 0 to |json|
        invariant |content| == |old(content)| + i && content[..|old(content)|] == old(content)
        invariant forall j :: |old(content)| <= j < |content| ==> fresh(content[j]) && content[j].rtype == rtype
        invariant DistinctFrom(content, |old(content)|)
        invariant Records() == old(Records()) + Loaded(json[..i])
      {
        ghost var before := content;
        Load(json[i]);
        DistinctAppend(before, |old(content)|, content[|before|]);
        LoadedSnoc(json, i);
      }
      assert json[..|json|] == json;
    }

    /**
     * The success continuation of `findAll()`: the content is emptied and
     * refilled from the response array, so it holds exactly one fresh
     * record per element, in order, and none of the records it held before.
     */
    method ApplyFindAllResponse(json: seq<Value>)
      modifies this
      ensures |content| == |json|
      ensures forall i :: 0 <= i < |content| ==> fresh(content[i]) && content[i].rtype == rtype
      ensures DistinctFrom(content, 0)
      ensures Records() == Loaded(json)
    {
      content := [];
      LoadAll(json);
    }
  }

  /**
   * Without an override, `findAll` reads from the very URL a new record of
   * the type is created at by `save`.
   */
  lemma FindAllListsWhereSaveCreates(c: ResourceController, fields: Fields)
    requires c.url.None? && IsNew(fields)
    ensures var o := SaveRequest(c.rtype, fields);
      o.Send? ==> o.request.verb == POST && o.request.url == c.FindAllRequest().url
  {
  }
}
