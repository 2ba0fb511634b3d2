/**
 * The upload plugin's controller actions that change state: `upload`, which
 * admits a batch of files, annotates each in place and post-processes what
 * storage returns, and `find` / `findOne`, which prefix the url of fetched
 * records in place. The buffering and storage services are collaborators
 * whose answers are parameters; they log their calls in ghost state.
 */
module UploadController {
  import opened Js
  import opened UploadFiles

  /** A file record object, updated in place with `Object.assign` and
      property assignments. */
  class FileRecord {
    var name: string
    var size: nat
    var url: UrlValue
    var related: RelatedField
    var path: JsValue

    constructor (d: FileData)
      ensures Data() == d
    {
      name, size, url, related, path := d.name, d.size, d.url, d.related, d.path;
    }

    /** The record's current data. */
    function Data(): FileData
      reads this
    {
      FileData(name, size, url, related, path)
    }

    /** The two in-place assignments `upload` makes on a file within the
        limit: the relation, then the destination folder. */
    method Annotate(body: RequestBody)
      modifies this
      ensures Data() == UploadFiles.Annotate(old(Data()), body)
    {
      if HasRelation(body) {
        related := List(RelationOf(body));
      }
      if Truthy(body.path) {
        path := body.path;
      }
    }
  }

  /** The current data of each record, in order. */
  function Snapshot(files: seq<FileRecord>): (r: seq<FileData>)
    reads files
    ensures |r| == |files|
    ensures forall i :: 0 <= i < |files| ==> r[i] == files[i].Data()
  {
    if files == [] then [] else [files[0].Data()] + Snapshot(files[1..])
  }

  predicate DistinctRecords(files: seq<FileRecord>)
  {
    forall i, j :: 0 <= i < j < |files| ==> files[i] != files[j]
  }

  /** Fresh record objects holding `data`: what a collaborator hands back. */
  method NewRecords(data: seq<FileData>) returns (files: seq<FileRecord>)
    ensures |files| == |data| && DistinctRecords(files)
    ensures forall i :: 0 <= i < |files| ==> fresh(files[i]) && files[i].Data() == data[i]
  {
    files := [];
    while |files| < |data|
      invariant |files| <= |data| && DistinctRecords(files)
      invariant forall i :: 0 <= i < |files| ==> fresh(files[i]) && files[i].Data() == data[i]
    {
      var f := new FileRecord(data[|files|]);
      files := files + [f];
    }
  }

  // ---------------------------------------------------------------------
  // The upload action

  /** An incoming multipart file, before buffering. */
  datatype Part = Part(name: string)

  /** The provider configuration the action reads: `enabled` as stored, and
      `sizeLimit` in bytes (`None` when no numeric limit is configured, in
      which case `size > sizeLimit` is false for every file). */
  datatype Config = Config(enabled: JsValue, sizeLimit: Option<int>)

  /** A file is over the limit when its size is strictly greater: a size
      equal to the limit passes. */
  predicate Exceeds(size: nat, limit: Option<int>)
    ensures Exceeds(size, limit) ==> limit.Some?
    ensures limit.Some? && size <= limit.value ==> !Exceeds(size, limit)
  {
    limit.Some? && size > limit.value
  }

  /** The policy rejections of an upload. */
  datatype Rejection = Disabled | Empty | TooLarge(fileName: string)

  /** What the action has put in the response. */
  datatype Body = NoBody | Rejected(reason: Rejection) | Sent(files: seq<FileData>)

  /** The admission decision for a request. */
  datatype Admission = Reject(reason: Rejection) | Store(batch: seq<FileData>)

  /** The position of the last file over the limit, or -1 when none is. */
  function LastOversizedIndex(files: seq<FileData>, limit: Option<int>): (k: int)
    ensures -1 <= k < |files|
    ensures k == -1 <==> forall i :: 0 <= i < |files| ==> !Exceeds(files[i].size, limit)
    ensures k >= 0 ==> Exceeds(files[k].size, limit)
    ensures forall j :: k < j < |files| ==> !Exceeds(files[j].size, limit)
    decreases |files|
  {
    if files == [] then -1
    else if Exceeds(files[|files| - 1].size, limit) then |files| - 1
    else
      var front := files[..|files| - 1];
      assert forall i :: 0 <= i < |front| ==> front[i] == files[i];
      LastOversizedIndex(front, limit)
  }

  /** The name of the last file over the limit, if any: every oversized file
      gets its own `badRequest`, and the last one's body is what remains. */
  function LastOversized(files: seq<FileData>, limit: Option<int>): (r: Option<string>)
    ensures r.None? <==> forall i :: 0 <= i < |files| ==> !Exceeds(files[i].size, limit)
    ensures r.Some? ==>
              exists i :: 0 <= i < |files| && Exceeds(files[i].size, limit) &&
                          files[i].name == r.value &&
                          forall j :: i < j < |files| ==> !Exceeds(files[j].size, limit)
  {
    var k := LastOversizedIndex(files, limit);
    if k == -1 then None else Some(files[k].name)
  }

  /** Extending the batch by one file: that file's name when it is over
      the limit, the earlier answer otherwise. */
  lemma LastOversizedStep(files: seq<FileData>, i: nat, limit: Option<int>)
    requires i < |files|
    ensures LastOversized(files[..i + 1], limit) ==
              if Exceeds(files[i].size, limit) then Some(files[i].name)
              else LastOversized(files[..i], limit)
  {
    assert files[..i + 1][..i] == files[..i];
  }

  /** What the per-file pass of `upload` leaves of a file: an oversized file
      as it was, any other file annotated. */
  function Passed(f: FileData, limit: Option<int>, body: RequestBody): FileData
  {
    if Exceeds(f.size, limit) then f else Annotate(f, body)
  }

  /** The decision the action takes: the enablement gate, the emptiness
      gate, the all-or-nothing size check, then the annotated batch. */
  function Admit(config: Config, body: RequestBody, incoming: seq<Part>,
                 buffered: seq<FileData>): (a: Admission)
    ensures a == Reject(Disabled) <==> config.enabled == Bool(false)
    ensures a == Reject(Empty) <==> config.enabled != Bool(false) && incoming == []
    ensures a.Reject? && a.reason.TooLarge? <==>
              config.enabled != Bool(false) && incoming != [] &&
              exists i :: 0 <= i < |buffered| && Exceeds(buffered[i].size, config.sizeLimit)
    ensures a.Reject? && a.reason.TooLarge? ==>
              LastOversized(buffered, config.sizeLimit) == Some(a.reason.fileName)
    ensures a.Store? ==>
              |a.batch| == |buffered| &&
              forall i :: 0 <= i < |buffered| ==>
                !Exceeds(buffered[i].size, config.sizeLimit) &&
                a.batch[i] == Annotate(buffered[i], body)
  {
    if config.enabled == Bool(false) then Reject(Disabled)
    else if incoming == [] then Reject(Empty)
    else match LastOversized(buffered, config.sizeLimit)
      case Some(name) => Reject(TooLarge(name))
      case None => Store(seq(|buffered|, i requires 0 <= i < |buffered| => Annotate(buffered[i], body)))
  }

  /** A file whose size equals the limit is admitted: only a strictly
      greater size rejects the batch. */
  lemma {:induction false} SizeAtLimitAdmitted(config: Config, body: RequestBody,
                                               incoming: seq<Part>, buffered: seq<FileData>)
    requires config.enabled != Bool(false) && incoming != []
    requires config.sizeLimit.Some?
    requires forall i :: 0 <= i < |buffered| ==> buffered[i].size <= config.sizeLimit.value
    ensures Admit(config, body, incoming, buffered).Store?
  {
    assert LastOversized(buffered, config.sizeLimit).None?;
  }

  /** The request/response context: the status and body the action sets. */
  class Context {
    var status: int
    var body: Body

    /** A fresh context, as the framework hands it to an action. */
    constructor ()
      ensures status == 404 && body == NoBody
    {
      status, body := 404, NoBody;
    }

    /** A bad-request reply: status 400 with the rejection as body. */
    method BadRequest(reason: Rejection)
      modifies this
      ensures status == 400 && body == Rejected(reason)
    {
      status, body := 400, Rejected(reason);
    }

    /** A success reply: status 200 with the records as body. */
    method Send(files: seq<FileData>)
      modifies this
      ensures status == 200 && body == Sent(files)
    {
      status, body := 200, Sent(files);
    }
  }

  /** The buffering and storage collaborators, with a log of their calls. */
  class Services {
    ghost var bufferCalls: nat
    ghost var batches: seq<seq<FileData>>

    constructor ()
      ensures bufferCalls == 0 && batches == []
    {
      bufferCalls, batches := 0, [];
    }

    /** Buffering: the buffered files are fresh records holding `reply`. */
    method Bufferize(parts: seq<Part>, reply: seq<FileData>) returns (files: seq<FileRecord>)
      modifies this
      ensures bufferCalls == old(bufferCalls) + 1 && batches == old(batches)
      ensures |files| == |reply| && DistinctRecords(files)
      ensures forall i :: 0 <= i < |files| ==> fresh(files[i]) && files[i].Data() == reply[i]
    {
      files := NewRecords(reply);
      bufferCalls := bufferCalls + 1;
    }

    /** Storage upload: logs the batch it is handed and returns fresh
        records holding `reply`. */
    method Upload(files: seq<FileRecord>, reply: seq<FileData>) returns (records: seq<FileRecord>)
      modifies this
      ensures bufferCalls == old(bufferCalls) && batches == old(batches) + [Snapshot(files)]
      ensures |records| == |reply| && DistinctRecords(records)
      ensures forall i :: 0 <= i < |records| ==> fresh(records[i]) && records[i].Data() == reply[i]
    {
      batches := batches + [Snapshot(files)];
      records := NewRecords(reply);
    }
  }

  /** The `upload` action. `buffered` is what buffering yields for the
      incoming parts and `stored` what storage returns for the batch. */
  method Upload(ctx: Context, svc: Services, config: Config, host: string,
               body: RequestBody, incoming: seq<Part>,
               buffered: seq<FileData>, stored: seq<FileData>)
    modifies ctx, svc
    ensures Admit(config, body, incoming, buffered).Reject? ==>
              svc.batches == old(svc.batches) && ctx.status == 400 &&
              ctx.body == Rejected(Admit(config, body, incoming, buffered).reason)
    ensures svc.bufferCalls ==
              if config.enabled == Bool(false) || incoming == [] then old(svc.bufferCalls)
              else old(svc.bufferCalls) + 1
    ensures Admit(config, body, incoming, buffered).Store? && old(ctx.status) == 400 ==>
              svc.batches == old(svc.batches) && ctx.status == 400 && ctx.body == old(ctx.body)
    ensures Admit(config, body, incoming, buffered).Store? && old(ctx.status) != 400 ==>
              svc.batches == old(svc.batches) + [Admit(config, body, incoming, buffered).batch] &&
              ctx.status == 200 && ctx.body == Sent(Responses(stored, host))
  {
    if config.enabled == Bool(false) {
      ctx.BadRequest(Disabled);
      return;
    }
    if incoming == [] {
      ctx.BadRequest(Empty);
      return;
    }
    var buffers := svc.Bufferize(incoming, buffered);
    AnnotateAll(ctx, buffers, buffered, config.sizeLimit, body);
    if ctx.status == 400 {
      return;
    }
    ghost var a := Admit(config, body, incoming, buffered);
    assert a.Store? by {
      assert LastOversized(buffered, config.sizeLimit).None?;
    }
    assert Snapshot(buffers) == a.batch;
    StoreAndSend(ctx, svc, buffers, stored, host);
  }

  /** The tail of `upload` once every gate has passed: the annotated batch
      goes to storage, and the stored records, post-processed, are sent. */
  method StoreAndSend(ctx: Context, svc: Services, buffers: seq<FileRecord>,
                      stored: seq<FileData>, host: string)
    modifies ctx, svc
    ensures svc.bufferCalls == old(svc.bufferCalls)
    ensures svc.batches == old(svc.batches) + [old(Snapshot(buffers))]
    ensures ctx.status == 200 && ctx.body == Sent(Responses(stored, host))
  {
    var records := svc.Upload(buffers, stored);
    RespondAll(records, stored, host);
    ctx.Send(Snapshot(records));
  }

  /** The per-file pass of `upload`: every file over the limit gets a
      bad-request reply; every other file is annotated in place. */
  method AnnotateAll(ctx: Context, buffers: seq<FileRecord>, buffered: seq<FileData>,
                     limit: Option<int>, body: RequestBody)
    requires |buffers| == |buffered| && DistinctRecords(buffers)
    requires forall k :: 0 <= k < |buffers| ==> buffers[k].Data() == buffered[k]
    modifies ctx, buffers
    ensures LastOversized(buffered, limit).Some? ==>
              ctx.status == 400 && ctx.body == Rejected(TooLarge(LastOversized(buffered, limit).value))
    ensures LastOversized(buffered, limit).None? ==>
              ctx.status == old(ctx.status) && ctx.body == old(ctx.body)
    ensures forall k :: 0 <= k < |buffers| ==> buffers[k].Data() == Passed(buffered[k], limit, body)
  {
    var i := 0;
    ghost var reply := LastOversized(buffered[..0], limit);
    while i < |buffers|
      invariant 0 <= i <= |buffers|
      invariant reply == LastOversized(buffered[..i], limit)
      invariant reply.Some? ==> ctx.status == 400 && ctx.body == Rejected(TooLarge(reply.value))
      invariant reply.None? ==> ctx.status == old(ctx.status) && ctx.body == old(ctx.body)
      invariant forall k :: 0 <= k < i ==> buffers[k].Data() == Passed(buffered[k], limit, body)
      invariant forall k :: i <= k < |buffers| ==> buffers[k].Data() == buffered[k]
    {
      LastOversizedStep(buffered, i, limit);
      PassOne(ctx, buffers[i], limit, body);
      reply := if Exceeds(buffered[i].size, limit) then Some(buffered[i].name) else reply;
      i := i + 1;
    }
    assert buffered[..i] == buffered;
  }

  /** One file of the per-file pass: a bad-request reply naming it when it
      is over the limit, its annotation otherwise. */
  method PassOne(ctx: Context, file: FileRecord, limit: Option<int>, body: RequestBody)
    modifies ctx, file
    ensures file.Data() == Passed(old(file.Data()), limit, body)
    ensures Exceeds(old(file.size), limit) ==>
              ctx.status == 400 && ctx.body == Rejected(TooLarge(old(file.name)))
    ensures !Exceeds(old(file.size), limit) ==>
              ctx.status == old(ctx.status) && ctx.body == old(ctx.body)
  {
    if Exceeds(file.size, limit) {
      ctx.BadRequest(TooLarge(file.name));
    } else {
      file.Annotate(body);
    }
  }

  /** The response pass of `upload`: each stored record's url and related
      list rewritten in place. */
  method RespondAll(records: seq<FileRecord>, stored: seq<FileData>, host: string)
    requires |records| == |stored| && DistinctRecords(records)
    requires forall k :: 0 <= k < |records| ==> records[k].Data() == stored[k]
    modifies records
    ensures Snapshot(records) == Responses(stored, host)
  {
    var i := 0;
    while i < |records|
      invariant 0 <= i <= |records|
      invariant forall k :: 0 <= k < i ==> records[k].Data() == Respond(stored[k], host)
      invariant forall k :: i <= k < |records| ==> records[k].Data() == stored[k]
    {
      var file := records[i];
      if IsLocal(file.url) {
        file.url := Url(host + file.url.s);
      }
      if file.related.List? {
        file.related := List(Flatten(file.related.items));
      }
      i := i + 1;
    }
  }

  // ---------------------------------------------------------------------
  // find and findOne

  /** The `find` action over the records `fetchAll` returns: each local url
      is prefixed with the host in place; a record whose url is undefined
      or null makes the first-character test throw, which fails the whole
      action. */
  method Find(host: string, fetched: seq<FileData>) returns (r: Result<seq<FileData>>)
    ensures r.Err? <==> exists k :: 0 <= k < |fetched| && IndexThrows(fetched[k].url)
    ensures r.Err? ==> r.fault == TypeError
    ensures r.Ok? ==>
              |r.value| == |fetched| &&
              forall k :: 0 <= k < |fetched| ==>
                r.value[k] == fetched[k].(url := PrefixLocal(fetched[k].url, host))
  {
    var records := NewRecords(fetched);
    var i := 0;
    while i < |records|
      invariant 0 <= i <= |records|
      invariant forall k :: 0 <= k < i ==> !IndexThrows(fetched[k].url)
      invariant forall k :: 0 <= k < i ==>
                  records[k].Data() == fetched[k].(url := PrefixLocal(fetched[k].url, host))
      invariant forall k :: i <= k < |records| ==> records[k].Data() == fetched[k]
    {
      var file := records[i];
      if IndexThrows(file.url) {
        return Err(TypeError);
      }
      if IsLocal(file.url) {
        file.url := Url(host + file.url.s);
      }
      i := i + 1;
    }
    r := Ok(Snapshot(records));
  }

  /** The `findOne` action over what `fetch` returns: not found when there
      is no record, otherwise the url is prefixed with the host whatever it is. */
  method FindOne(host: string, fetched: Option<FileData>) returns (r: Result<FileData>)
    ensures fetched.None? ==> r == Err(NotFound)
    ensures fetched.Some? ==>
              r.Ok? && r.value == fetched.value.(url := PrefixAlways(fetched.value.url, host))
  {
    if fetched.None? {
      return Err(NotFound);
    }
    var records := NewRecords([fetched.value]);
    var data := records[0];
    data.url := Url(host + UrlText(data.url));
    r := Ok(data.Data());
  }
}
