/** The cloud backend as the engine sees it: the write requests it issues and the
    documents a snapshot delivers, normalised into tasks. */
module CloudStore {
  import opened Wrappers
  import opened TaskList

  /** A document of the `tasks` collection as read from a snapshot. A field the
      document lacks (or holds as `null`) is `None`; `createdAt` is the server
      timestamp's millisecond value once it has resolved. */
  datatype Doc = Doc(
    id: string,
    title: Option<string>,
    description: Option<string>,
    dueDate: Option<string>,
    completed: Option<bool>,
    ownerId: Option<string>,
    createdAtMillis: Option<int>,
    createdAt: Option<int>)

  /** A write the engine asks the backend to perform. The server timestamps the
      requests carry (`createdAt`, `updatedAt`) are filled in by the backend. */
  datatype WriteRequest =
    | AddDoc(title: string, description: string, dueDate: string, completed: bool,
             ownerId: string, createdAtMillis: int)
    | UpdateCompleted(id: string, completed: bool)
    | UpdateFields(id: string, fields: Fields)
    | DeleteDoc(id: string)

  /** The creation time used for ordering: the client's numeric `createdAtMillis`,
      else the server timestamp, else the clock reading `now`. The clock is consulted
      only for a document that carries neither timestamp. */
  function CreatedAtMillis(d: Doc, now: int): (m: int)
    ensures m == now || Some(m) == d.createdAtMillis || Some(m) == d.createdAt
    ensures d.createdAtMillis.Some? || d.createdAt.Some? ==> Some(m) == d.createdAtMillis || Some(m) == d.createdAt
  {
    if d.createdAtMillis.Some? then d.createdAtMillis.value
    else if d.createdAt.Some? then d.createdAt.value
    else now
  }

  /** The task a snapshot document becomes in the view: id and owner carried over,
      each field the document holds kept, each missing text field empty and a
      missing `completed` false. */
  function Normalise(d: Doc, now: int): (t: Task)
    ensures t.id == d.id && t.ownerId == d.ownerId && t.createdAt == CreatedAtMillis(d, now)
    ensures d.title.Some? ==> t.title == d.title.value
    ensures d.description.Some? ==> t.description == d.description.value
    ensures d.dueDate.Some? ==> t.dueDate == d.dueDate.value
    ensures d.title.None? ==> t.title == ""
    ensures d.description.None? ==> t.description == ""
    ensures d.dueDate.None? ==> t.dueDate == ""
    ensures t.completed <==> d.completed == Some(true)
  {
    Task(
      d.id,
      d.title.GetOr(""),
      d.description.GetOr(""),
      d.dueDate.GetOr(""),
      d.completed.GetOr(false),
      CreatedAtMillis(d, now),
      d.ownerId)
  }

  /** A document holding nothing but its id becomes an open, untitled task without
      owner, created at the clock reading. */
  lemma EmptyDocDefaults(id: string, now: int)
    ensures Normalise(Doc(id, None, None, None, None, None, None, None), now) ==
      Task(id, "", "", "", false, now, None)
  {
  }

  /** `snapshot.docs.map(...)`: one task per document, in the snapshot's order, each
      keeping the document's id and owner. */
  function NormaliseAll(docs: seq<Doc>, now: int): (r: seq<Task>)
    ensures |r| == |docs|
    ensures forall i :: 0 <= i < |docs| ==> r[i] == Normalise(docs[i], now)
    ensures forall i :: 0 <= i < |docs| ==> r[i].id == docs[i].id && r[i].ownerId == docs[i].ownerId
  {
    seq(|docs|, i requires 0 <= i < |docs| => Normalise(docs[i], now))
  }

  /** A snapshot scoped to one owner yields a view in which every task belongs to that owner. */
  lemma SnapshotScope(docs: seq<Doc>, now: int, uid: string)
    requires forall d :: d in docs ==> d.ownerId == Some(uid)
    ensures forall t :: t in NormaliseAll(docs, now) ==> t.ownerId == Some(uid)
  {
    var r := NormaliseAll(docs, now);
    forall t | t in r
      ensures t.ownerId == Some(uid)
    {
      var i :| 0 <= i < |r| && r[i] == t;
      assert docs[i] in docs;
    }
  }

  /** The document the backend stores for an `AddDoc` request under the id it assigns;
      `serverMillis` is the server timestamp, absent while it is pending. */
  function Stored(req: WriteRequest, docId: string, serverMillis: Option<int>): Doc
    requires req.AddDoc?
  {
    Doc(docId, Some(req.title), Some(req.description), Some(req.dueDate), Some(req.completed),
        Some(req.ownerId), Some(req.createdAtMillis), serverMillis)
  }

  /** Echo of a create: once the snapshot delivers the stored document, the view holds
      exactly the task the request described, ordered by the client's timestamp,
      whether or not the server timestamp has resolved and whatever the clock reads. */
  lemma AddDocEcho(req: WriteRequest, docId: string, serverMillis: Option<int>, now: int)
    requires req.AddDoc?
    ensures Normalise(Stored(req, docId, serverMillis), now) ==
      Task(docId, req.title, req.description, req.dueDate, req.completed, req.createdAtMillis, Some(req.ownerId))
  {
  }

  /** A document that carries `createdAtMillis` is ordered by it: neither the server
      timestamp nor the clock changes its position. */
  lemma ClientMillisTakePrecedence(d: Doc, serverMillis: Option<int>, now1: int, now2: int)
    requires d.createdAtMillis.Some?
    ensures CreatedAtMillis(d.(createdAt := serverMillis), now1) == CreatedAtMillis(d, now2) == d.createdAtMillis.value
  {
  }

  /** Without a client timestamp, a resolved server timestamp orders the document
      and the clock does not matter. */
  lemma ServerMillisBeforeClock(d: Doc, now1: int, now2: int)
    requires d.createdAtMillis.None? && d.createdAt.Some?
    ensures CreatedAtMillis(d, now1) == CreatedAtMillis(d, now2) == d.createdAt.value
  {
  }
}
