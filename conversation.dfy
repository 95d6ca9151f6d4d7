/**
 * The handlers of index.js as functions from the bot's state (the pending map `memoryStore`
 * and the collection store `db`) to the next state and the reply. `Bot.LinkBot` performs the
 * same updates in place and is proved against these functions.
 */
module Conversation {
  import opened Domain
  import opened JsStrings
  import opened Titles
  import opened Markdown
  import opened Store

  datatype State = State(memoryStore: map<UserId, Link>, db: Docs)

  /** What a handler that succeeds leaves behind: the next state and the text it replies. */
  datatype Step = Step(next: State, reply: string)

  /**
   * What the handlers keep true of the store: a user with documents has exactly one, it is
   * keyed by that user, and it holds only links classified into one of the four categories.
   */
  predicate Inv(s: State)
  {
    forall u :: u in s.db ==>
      |s.db[u]| == 1 && s.db[u][0].userId == u &&
      forall l :: l in s.db[u][0].links ==> IsCategory(l.category)
  }

  /** The reply to `new collection <name>`: a fixed text that ends with the name. */
  function NewCollectionReply(name: string): (r: string)
    ensures |r| == 34 + |name| && r[34..] == name
  {
    "New collection created with name: " + name
  }

  /** The reply to a URL: the title between double quotes, then the question on a new line. */
  function ReadyReply(title: string): (r: string)
    ensures |r| == 46 + |title|
    ensures r[15] == '"' && r[16..16 + |title|] == title && r[16 + |title|] == '"'
    ensures r[18 + |title|] == '\n'
  {
    var before, after := "Ready to save: \"", "\".\nWhat category should it be?";
    assert |before| == 16 && before[15] == '"';
    assert |after| == 30 && after[0] == '"' && after[2] == '\n';
    before + title + after
  }

  /** The reply to a category: names the category and ends with the pending link's title. */
  function SavedReply(category: string, title: string): (r: string)
    ensures |r| == 18 + |category| + |title|
    ensures r[16..16 + |category|] == category && r[18 + |category|..] == title
  {
    "Saved link into " + category + ": " + title
  }

  /** `new collection <name>`: drop every document of the user, then insert an empty one. */
  function NewCollection(s: State, userId: UserId, name: string): (step: Step)
    ensures RecordsOf(step.next.db, userId) == [Record(userId, name, [])]
    ensures forall v :: v != userId ==> RecordsOf(step.next.db, v) == RecordsOf(s.db, v)
    ensures step.next.memoryStore == s.memoryStore
    ensures step.reply == NewCollectionReply(name)
  {
    ResetLeavesOneRecord(s.db, Record(userId, name, []));
    var db := Insert(RemoveAll(s.db, userId), Record(userId, name, []));
    Step(State(s.memoryStore, db), NewCollectionReply(name))
  }

  /**
   * A message with a URL: the page's title (from its `<title>` matches) and the first URL
   * become the user's pending link, with an empty category, replacing any earlier one.
   */
  function IngestUrl(s: State, userId: UserId, firstUrl: string, titleMatches: seq<string>,
                     decode: string -> string): (r: Result<Step, BotError>)
    ensures r.Err? <==> titleMatches == []
    ensures r.Err? ==> r.error == NoTitleTag
    ensures r.Ok? ==>
      var title := decode(StripTitleTag(titleMatches[|titleMatches| - 1]));
      && r.value.next.memoryStore == s.memoryStore[userId := Link(firstUrl, title, "")]
      && r.value.next.db == s.db
      && r.value.reply == ReadyReply(title)
  {
    match ExtractTitle(titleMatches, decode)
    case Err(e) => Err(e)
    case Ok(title) =>
      Ok(Step(State(s.memoryStore[userId := Link(firstUrl, title, "")], s.db), ReadyReply(title)))
  }

  /**
   * A category name: the pending link takes the category, stays pending, and is pushed onto
   * the user's document. Without a pending link the handler fails before changing anything.
   */
  function Classify(s: State, userId: UserId, category: string): (r: Result<Step, BotError>)
    requires IsCategory(category)
    ensures r.Err? <==> userId !in s.memoryStore
    ensures r.Err? ==> r.error == NoPendingLink
    ensures r.Ok? ==>
      var link := s.memoryStore[userId].(category := category);
      && r.value.next.memoryStore == s.memoryStore[userId := link]
      && r.value.next.db == PushLink(s.db, userId, link)
      && r.value.reply == SavedReply(category, link.title)
  {
    if userId !in s.memoryStore then Err(NoPendingLink)
    else
      var link := s.memoryStore[userId].(category := category);
      Ok(Step(State(s.memoryStore[userId := link], PushLink(s.db, userId, link)),
              SavedReply(category, link.title)))
  }

  /** `generateMarkdown(userId)`: the document of the user's first collection document. */
  function Render(db: Docs, userId: UserId): (r: Result<string, BotError>)
    ensures r.Err? <==> RecordsOf(db, userId) == []
    ensures r.Err? ==> r.error == NoCollection
  {
    match FindOne(db, userId)
    case None => Err(NoCollection)
    case Some(record) => Ok(MarkdownOf(record.links))
  }

  // ---------------------------------------------------------------------------------------
  // The invariant
  // ---------------------------------------------------------------------------------------

  lemma NewCollectionKeepsInv(s: State, userId: UserId, name: string)
    requires Inv(s)
    ensures Inv(NewCollection(s, userId, name).next)
  {
    var next := NewCollection(s, userId, name).next;
    forall u | u in next.db
      ensures |next.db[u]| == 1 && next.db[u][0].userId == u
      ensures forall l :: l in next.db[u][0].links ==> IsCategory(l.category)
    {
      assert next.db[u] == RecordsOf(next.db, u);
      if u != userId {
        assert RecordsOf(s.db, u) == next.db[u];
      }
    }
  }

  lemma IngestUrlKeepsInv(s: State, userId: UserId, firstUrl: string, titleMatches: seq<string>,
                          decode: string -> string)
    requires Inv(s)
    ensures IngestUrl(s, userId, firstUrl, titleMatches, decode).Ok? ==>
      Inv(IngestUrl(s, userId, firstUrl, titleMatches, decode).value.next)
  {
  }

  lemma ClassifyKeepsInv(s: State, userId: UserId, category: string)
    requires Inv(s) && IsCategory(category)
    ensures Classify(s, userId, category).Ok? ==> Inv(Classify(s, userId, category).value.next)
  {
    var r := Classify(s, userId, category);
    if r.Ok? {
      var link := s.memoryStore[userId].(category := category);
      var next := r.value.next;
      forall u | u in next.db
        ensures |next.db[u]| == 1 && next.db[u][0].userId == u
        ensures forall l :: l in next.db[u][0].links ==> IsCategory(l.category)
      {
        assert next.db[u] == RecordsOf(next.db, u);
        assert u in s.db;
        if u == userId {
          assert s.db[u] == RecordsOf(s.db, u);
          assert forall l :: l in next.db[u][0].links ==> l in s.db[u][0].links || l == link;
        } else {
          assert RecordsOf(s.db, u) == next.db[u];
        }
      }
    }
  }

  // ---------------------------------------------------------------------------------------
  // Conversations
  // ---------------------------------------------------------------------------------------

  /** Right after `new collection`, every category of the user's document is empty. */
  lemma NewCollectionRendersEmpty(s: State, userId: UserId, name: string)
    ensures Render(NewCollection(s, userId, name).next.db, userId) == Ok(MarkdownOf([]))
  {
  }

  /**
   * `new collection`, a URL whose page has title `t`, then category `c`: the user's document
   * lists that one link, as `- [t'](url)` with `t'` the decoded and sanitised title, under
   * `c`, and the placeholder everywhere else.
   */
  lemma CollectThenRender(s: State, userId: UserId, name: string, url: string,
                          earlier: seq<string>, t: string, decode: string -> string, c: string)
    requires IsCategory(c) && !Contains(t, CloseTag)
    ensures
      var s1 := NewCollection(s, userId, name).next;
      var r2 := IngestUrl(s1, userId, url, earlier + [OpenTag + t + CloseTag], decode);
      && r2.Ok?
      && var r3 := Classify(r2.value.next, userId, c);
      && r3.Ok?
      && r3.value.reply == SavedReply(c, decode(t))
      && Render(r3.value.next.db, userId) == Ok(MarkdownOf([Link(url, decode(t), c)]))
      && SectionBody([Link(url, decode(t), c)], c) ==
           "- [" + SanitizeTitle(decode(t)) + "](" + url + ")\n"
      && forall other :: IsCategory(other) && other != c ==>
           SectionBody([Link(url, decode(t), c)], other) == NoLinksLine
  {
    var matches := earlier + [OpenTag + t + CloseTag];
    StripTitleTagOfMatch(t);
    assert matches[|matches| - 1] == OpenTag + t + CloseTag;
    var s1 := NewCollection(s, userId, name).next;
    var s2 := IngestUrl(s1, userId, url, matches, decode).value.next;
    var link := Link(url, decode(t), c);
    assert s2.memoryStore[userId].(category := c) == link;
    FindOneAfterPush(s2.db, userId, link);
    assert [] + [link] == [link];
    SingleLinkMarkdown(link);
  }

  /** A second URL before any category replaces the first: the first can no longer be saved. */
  lemma LaterUrlReplacesPending(s: State, userId: UserId, url1: string, matches1: seq<string>,
                                url2: string, matches2: seq<string>, decode: string -> string)
    requires matches1 != [] && matches2 != []
    ensures
      var s1 := IngestUrl(s, userId, url1, matches1, decode).value.next;
      IngestUrl(s1, userId, url2, matches2, decode).value.next ==
        IngestUrl(s, userId, url2, matches2, decode).value.next
  {
    var s1 := IngestUrl(s, userId, url1, matches1, decode).value.next;
    assert s1.memoryStore[userId := Link(url2, decode(StripTitleTag(matches2[|matches2| - 1])), "")]
        == s.memoryStore[userId := Link(url2, decode(StripTitleTag(matches2[|matches2| - 1])), "")];
  }

  /** The pending link is not cleared: sending the category again saves the link a second time. */
  lemma RepeatedCategorySavesAgain(s: State, userId: UserId, c: string)
    requires IsCategory(c) && userId in s.memoryStore && FindOne(s.db, userId).Some?
    ensures
      var link := s.memoryStore[userId].(category := c);
      var r1 := Classify(s, userId, c);
      var r2 := Classify(r1.value.next, userId, c);
      FindOne(r2.value.next.db, userId).value.links == FindOne(s.db, userId).value.links + [link, link]
  {
    var link := s.memoryStore[userId].(category := c);
    var s1 := Classify(s, userId, c).value.next;
    FindOneAfterPush(s.db, userId, link);
    assert s1.memoryStore[userId].(category := c) == link;
    FindOneAfterPush(s1.db, userId, link);
    var before := FindOne(s.db, userId).value.links;
    assert before + [link] + [link] == before + [link, link];
  }

  /** With the invariant, every saved link of the user appears exactly once in the document. */
  lemma RenderListsEverySavedLink(s: State, userId: UserId)
    requires Inv(s) && FindOne(s.db, userId).Some?
    ensures
      var links := FindOne(s.db, userId).value.links;
      multiset(GroupOf(links, Categories[0])) + multiset(GroupOf(links, Categories[1])) +
      multiset(GroupOf(links, Categories[2])) + multiset(GroupOf(links, Categories[3])) ==
      multiset(links)
  {
    assert s.db[userId] == RecordsOf(s.db, userId);
    EveryClassifiedLinkListedOnce(FindOne(s.db, userId).value.links);
  }
}
