/**
 * The collection store `db` as the handlers use it: the documents of each user, and the
 * four operations remove-all, insert, `$push` and `findOne`, each keyed by `{userId}`.
 */
module Store {
  import opened Domain

  /** The documents of every user, in insertion order. */
  type Docs = map<UserId, seq<Record>>

  /** The documents that match the query `{userId}`. */
  function RecordsOf(docs: Docs, userId: UserId): seq<Record>
  {
    if userId in docs then docs[userId] else []
  }

  /** `db.remove({userId}, {multi: true})`: every document of the user goes, nobody else's. */
  function RemoveAll(docs: Docs, userId: UserId): (d: Docs)
    ensures RecordsOf(d, userId) == []
    ensures forall v :: v != userId ==> RecordsOf(d, v) == RecordsOf(docs, v)
  {
    docs - {userId}
  }

  /** `db.insert(record)`: the record joins its user's documents, nobody else's change. */
  function Insert(docs: Docs, record: Record): (d: Docs)
    ensures RecordsOf(d, record.userId) == RecordsOf(docs, record.userId) + [record]
    ensures forall v :: v != record.userId ==> RecordsOf(d, v) == RecordsOf(docs, v)
  {
    docs[record.userId := RecordsOf(docs, record.userId) + [record]]
  }

  /**
   * `db.update({userId}, {$push: {links: link}})`: without the `multi` option only the first
   * matching document is updated; when none matches nothing happens and nothing fails.
   */
  function PushLink(docs: Docs, userId: UserId, link: Link): (d: Docs)
    ensures RecordsOf(docs, userId) == [] ==> d == docs
    ensures |RecordsOf(d, userId)| == |RecordsOf(docs, userId)|
    ensures RecordsOf(docs, userId) != [] ==>
      RecordsOf(d, userId)[0].links == RecordsOf(docs, userId)[0].links + [link] &&
      RecordsOf(d, userId)[0].userId == RecordsOf(docs, userId)[0].userId &&
      RecordsOf(d, userId)[0].collectionName == RecordsOf(docs, userId)[0].collectionName &&
      RecordsOf(d, userId)[1..] == RecordsOf(docs, userId)[1..]
    ensures forall v :: v != userId ==> RecordsOf(d, v) == RecordsOf(docs, v)
  {
    var records := RecordsOf(docs, userId);
    if records == [] then docs
    else docs[userId := [records[0].(links := records[0].links + [link])] + records[1..]]
  }

  /** `db.findOne({userId})`: the first matching document, or null. */
  function FindOne(docs: Docs, userId: UserId): (r: Option<Record>)
    ensures r.None? <==> RecordsOf(docs, userId) == []
    ensures r.Some? ==> r.value == RecordsOf(docs, userId)[0]
  {
    var records := RecordsOf(docs, userId);
    if records == [] then None else Some(records[0])
  }

  /** Removing every document of a user and inserting one leaves exactly that one for the user. */
  lemma ResetLeavesOneRecord(docs: Docs, record: Record)
    ensures RecordsOf(Insert(RemoveAll(docs, record.userId), record), record.userId) == [record]
    ensures FindOne(Insert(RemoveAll(docs, record.userId), record), record.userId) == Some(record)
  {
    assert [] + [record] == [record];
  }

  /** A push is seen by the next `findOne`: the first document's links gain the link at the end. */
  lemma FindOneAfterPush(docs: Docs, userId: UserId, link: Link)
    requires FindOne(docs, userId).Some?
    ensures FindOne(PushLink(docs, userId, link), userId) ==
      Some(FindOne(docs, userId).value.(links := FindOne(docs, userId).value.links + [link]))
  {
  }
}
