/** Document rows, uploads and the group ACL shared by the in-memory and SQL stores. */
module Documents {
  import opened Sequences

  /** A content hash truncated to 24 hexadecimal digits. Digests have one length, so
      comparing them as strings is comparing them as numbers. */
  type DocId = nat

  type Time = int

  datatype Status = Ready | Superseded

  /** The logical document that versions share. */
  datatype Source = Source(system: string, id: string)

  datatype Key = DocKey(tenant: string, docId: DocId)

  datatype Chunk = Chunk(text: string, index: nat, source: string, page: Option<nat>)

  datatype Row = Row(
    tenant: string,
    docId: DocId,
    displayName: string,
    source: Source,
    version: nat,
    status: Status,
    contentType: string,
    sha: string,
    chunkCount: nat,
    allowedGroups: seq<string>,
    sourceVersion: Option<string>,
    sourceModifiedAt: Option<Time>,
    lastCheckedAt: Time,
    createdAt: Time,
    updatedAt: Time)
  {
    function Key(): Key { DocKey(tenant, docId) }
  }

  datatype Upload = Upload(
    tenant: string,
    filename: string,
    docId: DocId,
    sha: string,
    chunks: seq<Chunk>,
    acl: Option<seq<string>>,
    groups: set<string>,
    contentType: string,
    explicitSource: Option<Source>,
    sourceVersion: Option<string>,
    sourceModifiedAt: Option<Time>)
  {
    function Key(): Key { DocKey(tenant, docId) }

    /** A plain upload is identified by its filename. */
    function Origin(): Source {
      match explicitSource
      case Some(s) => s
      case None => Source("upload", filename)
    }
  }

  datatype PersistResult = PersistResult(
    docId: DocId, chunksWritten: nat, alreadyExisted: bool, version: nat, superseded: seq<DocId>)

  /** An empty ACL is open to the whole tenant; otherwise one shared group is needed. */
  predicate CanRead(allowed: seq<string>, groups: set<string>) {
    allowed == [] || exists g :: g in allowed && g in groups
  }

  predicate Visible(r: Row, groups: set<string>) {
    CanRead(r.allowedGroups, groups)
  }

  /** A version of one logical document that the caller can see. */
  predicate IsVersion(r: Row, tenant: string, source: Source, groups: set<string>) {
    r.tenant == tenant && r.source == source && Visible(r, groups)
  }

  predicate IsReady(r: Row) { r.status == Ready }

  predicate IsSibling(r: Row, u: Upload) {
    IsVersion(r, u.tenant, u.Origin(), u.groups) && r.docId != u.docId
  }
}
