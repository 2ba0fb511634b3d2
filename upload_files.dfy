/**
 * The pure part of the upload plugin's controller: the data of a file record,
 * the annotation an upload gives each file, the post-processing of the
 * records storage returns, and the environment listing.
 */
module UploadFiles {
  import opened Js

  /** A record's `url`: absent, null, or a string. */
  datatype UrlValue = NoUrl | NullUrl | Url(s: string)

  /** One entry of a record's `related` list: a relation object, or a bare
      value (what flattening leaves in place of an object). */
  datatype RelatedItem =
    | Link(refId: JsValue, ref: JsValue, source: JsValue, field: JsValue)
    | Plain(v: JsValue)

  /** A record's `related` attribute: an array, or anything that is not one
      (including absent). */
  datatype RelatedField = NotArray | List(items: seq<RelatedItem>)

  /** The data of a file record; `path` is undefined until an upload sets it. */
  datatype FileData = FileData(
    name: string,
    size: nat,
    url: UrlValue,
    related: RelatedField,
    path: JsValue)

  /** The optional relational data of an upload request; a missing body
      reads as all undefined. */
  datatype RequestBody = RequestBody(
    refId: JsValue,
    ref: JsValue,
    source: JsValue,
    field: JsValue,
    path: JsValue)

  /** The outcomes that are not a success. */
  datatype Fault = TypeError | NotFound

  datatype Result<T> = Ok(value: T) | Err(fault: Fault)

  // ---------------------------------------------------------------------
  // Annotation of an uploaded file

  /** The relation is attached only when `refId`, `ref` and `field` are all truthy. */
  predicate HasRelation(body: RequestBody)
  {
    Truthy(body.refId) && Truthy(body.ref) && Truthy(body.field)
  }

  /** The one-element `related` list an upload attaches. */
  function RelationOf(body: RequestBody): seq<RelatedItem>
  {
    [Link(body.refId, body.ref, body.source, body.field)]
  }

  /** The two `Object.assign` calls an upload makes on a file within the size
      limit: the relation, then the destination folder. */
  function Annotate(f: FileData, body: RequestBody): (g: FileData)
    ensures g.name == f.name && g.size == f.size && g.url == f.url
    ensures HasRelation(body) ==> g.related == List(RelationOf(body))
    ensures !HasRelation(body) ==> g.related == f.related
    ensures Truthy(body.path) ==> g.path == body.path
    ensures !Truthy(body.path) ==> g.path == f.path
  {
    var withRelation := if HasRelation(body) then f.(related := List(RelationOf(body))) else f;
    if Truthy(body.path) then withRelation.(path := body.path) else withRelation
  }

  /** Annotating twice is annotating once. */
  lemma AnnotateIdempotent(f: FileData, body: RequestBody)
    ensures Annotate(Annotate(f, body), body) == Annotate(f, body)
  {
  }

  // ---------------------------------------------------------------------
  // Post-processing of stored records

  /** A url that starts with `/` is served by this backend. An empty string
      is falsy, so it is never local. */
  predicate IsLocal(u: UrlValue)
  {
    u.Url? && |u.s| > 0 && u.s[0] == '/'
  }

  /** The upload response's url rewrite: a local url gets the host in
      front of it; any other url, absent ones included, is left alone. */
  function PrefixLocal(u: UrlValue, host: string): (r: UrlValue)
    ensures IsLocal(u) ==> r == Url(host + u.s)
    ensures !IsLocal(u) ==> r == u
  {
    if IsLocal(u) then Url(host + u.s) else u
  }

  /** A relation object is replaced by its `ref` when that is truthy and
      kept otherwise; what comes out is never a relation object with a
      truthy `ref`, so it is left alone by a second pass. */
  function FlattenItem(x: RelatedItem): (r: RelatedItem)
    ensures x.Link? && Truthy(x.ref) ==> r == Plain(x.ref)
    ensures !(x.Link? && Truthy(x.ref)) ==> r == x
    ensures !(r.Link? && Truthy(r.ref))
  {
    if x.Link? && Truthy(x.ref) then Plain(x.ref) else x
  }

  /** The flattening of a `related` list, entry by entry, in order. */
  function Flatten(items: seq<RelatedItem>): (r: seq<RelatedItem>)
    ensures |r| == |items|
    ensures forall i :: 0 <= i < |items| ==>
              (items[i].Link? && Truthy(items[i].ref) ==> r[i] == Plain(items[i].ref)) &&
              (!(items[i].Link? && Truthy(items[i].ref)) ==> r[i] == items[i])
  {
    if items == [] then [] else [FlattenItem(items[0])] + Flatten(items[1..])
  }

  /** Flattening a flattened list changes nothing more. */
  lemma {:induction false} FlattenIdempotent(items: seq<RelatedItem>)
    ensures Flatten(Flatten(items)) == Flatten(items)
  {
    var once := Flatten(items);
    var twice := Flatten(once);
    assert |twice| == |once|;
    forall i | 0 <= i < |once|
      ensures twice[i] == once[i]
    {
    }
  }

  /** What the upload response makes of one stored record. */
  function Respond(f: FileData, host: string): (g: FileData)
    ensures g.name == f.name && g.size == f.size && g.path == f.path
    ensures g.url == PrefixLocal(f.url, host)
    ensures f.related.List? ==> g.related == List(Flatten(f.related.items))
    ensures !f.related.List? ==> g.related == f.related
  {
    f.(url := PrefixLocal(f.url, host),
       related := if f.related.List? then List(Flatten(f.related.items)) else f.related)
  }

  /** The upload response: every stored record post-processed, in order. */
  function Responses(records: seq<FileData>, host: string): (r: seq<FileData>)
    ensures |r| == |records|
    ensures forall i :: 0 <= i < |records| ==> r[i] == Respond(records[i], host)
  {
    if records == [] then [] else [Respond(records[0], host)] + Responses(records[1..], host)
  }

  /** With an empty host, or one that does not start with `/`,
      post-processing a response again leaves it as it is. */
  lemma {:induction false} RespondIdempotent(f: FileData, host: string)
    requires host == "" || host[0] != '/'
    ensures Respond(Respond(f, host), host) == Respond(f, host)
  {
    var g := Respond(f, host);
    if host == "" {
      if f.url.Url? {
        assert host + f.url.s == f.url.s;
      }
    } else if IsLocal(f.url) {
      assert (host + f.url.s)[0] == host[0];
      assert !IsLocal(g.url);
    }
    if f.related.List? {
      FlattenIdempotent(f.related.items);
    }
  }

  // ---------------------------------------------------------------------
  // find and findOne

  /** Reading the first character of an undefined or null url throws. */
  predicate IndexThrows(u: UrlValue)
  {
    u.NoUrl? || u.NullUrl?
  }

  /** The string that JavaScript's `+` makes of a url. */
  function UrlText(u: UrlValue): string
  {
    match u
    case NoUrl => "undefined"
    case NullUrl => "null"
    case Url(s) => s
  }

  /** The url rewrite of `findOne`: the host goes in front in every case. */
  function PrefixAlways(u: UrlValue, host: string): (r: UrlValue)
    ensures r.Url? && |r.s| == |host| + |UrlText(u)|
    ensures r.s[..|host|] == host
    ensures r.s[|host|..] == UrlText(u)
  {
    Url(host + UrlText(u))
  }

  /** `find` and `findOne` agree on a url exactly when it is local or the
      host is empty: `findOne` prefixes unconditionally, `find` only a url
      starting with `/`. */
  lemma {:induction false} FindAgreesWithFindOne(u: UrlValue, host: string)
    requires !IndexThrows(u)
    ensures PrefixLocal(u, host) == PrefixAlways(u, host) <==> IsLocal(u) || host == ""
  {
    if !IsLocal(u) && PrefixLocal(u, host) == PrefixAlways(u, host) {
      assert |u.s| == |host| + |u.s|;
    }
    if host == "" {
      assert host + u.s == u.s;
    }
  }

  // ---------------------------------------------------------------------
  // getEnvironments

  datatype EnvEntry = EnvEntry(name: string, active: bool)

  /** One entry per configured environment name, in order, active exactly
      when it is the current environment. */
  function Environments(names: seq<string>, current: string): (r: seq<EnvEntry>)
    ensures |r| == |names|
    ensures forall i :: 0 <= i < |names| ==>
              r[i].name == names[i] && (r[i].active <==> names[i] == current)
  {
    if names == [] then []
    else [EnvEntry(names[0], names[0] == current)] + Environments(names[1..], current)
  }

  /** The keys of an object are distinct. */
  predicate Distinct(names: seq<string>)
  {
    forall i, j :: 0 <= i < j < |names| ==> names[i] != names[j]
  }

  /** With distinct names, exactly one entry is active when the current
      environment is configured, and none otherwise. */
  lemma {:induction false} OneActiveEnvironment(names: seq<string>, current: string)
    requires Distinct(names)
    ensures current in names <==>
            exists i :: 0 <= i < |names| && Environments(names, current)[i].active
    ensures forall i, j ::
              0 <= i < |names| && 0 <= j < |names| &&
              Environments(names, current)[i].active && Environments(names, current)[j].active
              ==> i == j
  {
    var r := Environments(names, current);
    if current in names {
      var i :| 0 <= i < |names| && names[i] == current;
      assert r[i].active;
      assert exists k :: 0 <= k < |names| && Environments(names, current)[k].active;
    }
    if exists i :: 0 <= i < |names| && r[i].active {
      var i :| 0 <= i < |names| && r[i].active;
      assert names[i] in names;
    }
    forall i, j | 0 <= i < |names| && 0 <= j < |names| && r[i].active && r[j].active
      ensures i == j
    {
      assert names[i] == current == names[j];
    }
  }
}
