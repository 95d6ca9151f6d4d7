/**
 * The bot's handlers as they run: `memoryStore` and `db` are fields that each handler
 * updates in place. Every method is proved against the matching `Conversation` function.
 */
module Bot {
  import opened Domain
  import opened Titles
  import opened Markdown
  import opened Store
  import Conversation

  class LinkBot {
    /** The pending link of each user; lost when the process restarts. */
    var memoryStore: map<UserId, Link>
    /** The collection store; it outlives the process. */
    var db: Docs

    function Snapshot(): Conversation.State
      reads this
    {
      Conversation.State(memoryStore, db)
    }

    ghost predicate Valid()
      reads this
    {
      Conversation.Inv(Snapshot())
    }

    /** A freshly started bot: no pending links, and the store as it was persisted. */
    constructor (persisted: Docs)
      requires Conversation.Inv(Conversation.State(map[], persisted))
      ensures Valid()
      ensures memoryStore == map[] && db == persisted
    {
      memoryStore := map[];
      db := persisted;
    }

    /** `new collection <name>` */
    method NewCollection(userId: UserId, collectionName: string) returns (reply: string)
      requires Valid()
      modifies this
      ensures Valid()
      ensures Conversation.Step(Snapshot(), reply) ==
        Conversation.NewCollection(old(Snapshot()), userId, collectionName)
    {
      Conversation.NewCollectionKeepsInv(Snapshot(), userId, collectionName);
      db := RemoveAll(db, userId);
      db := Insert(db, Record(userId, collectionName, []));
      reply := Conversation.NewCollectionReply(collectionName);
    }

    /** A message with a URL, given its first URL and the `<title>` matches of its page. */
    method IngestUrl(userId: UserId, firstUrl: string, titleMatches: seq<string>,
                     decode: string -> string) returns (r: Result<string, BotError>)
      requires Valid()
      modifies this
      ensures Valid()
      ensures match Conversation.IngestUrl(old(Snapshot()), userId, firstUrl, titleMatches, decode)
        case Err(e) => r == Err(e) && Snapshot() == old(Snapshot())
        case Ok(step) => r == Ok(step.reply) && Snapshot() == step.next
    {
      if titleMatches == [] {
        return Err(NoTitleTag);
      }
      var title := decode(StripTitleTag(titleMatches[|titleMatches| - 1]));
      memoryStore := memoryStore[userId := Link(firstUrl, title, "")];
      r := Ok(Conversation.ReadyReply(title));
    }

    /** A message that is exactly one of the category names. */
    method Classify(userId: UserId, category: string) returns (r: Result<string, BotError>)
      requires Valid() && IsCategory(category)
      modifies this
      ensures Valid()
      ensures match Conversation.Classify(old(Snapshot()), userId, category)
        case Err(e) => r == Err(e) && Snapshot() == old(Snapshot())
        case Ok(step) => r == Ok(step.reply) && Snapshot() == step.next
    {
      Conversation.ClassifyKeepsInv(Snapshot(), userId, category);
      if userId !in memoryStore {
        return Err(NoPendingLink);
      }
      var linkObject := memoryStore[userId];
      linkObject := linkObject.(category := category);
      memoryStore := memoryStore[userId := linkObject];
      db := PushLink(db, userId, linkObject);
      r := Ok(Conversation.SavedReply(category, memoryStore[userId].title));
    }

    /** `generate markdown` and `generate preview`: both reply with this document. */
    method GenerateMarkdown(userId: UserId) returns (r: Result<string, BotError>)
      ensures r == Conversation.Render(db, userId)
    {
      var found := FindOne(db, userId);
      if found.None? {
        return Err(NoCollection);
      }
      r := Ok(MarkdownOf(found.value.links));
    }
  }
}
