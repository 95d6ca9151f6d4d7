/** The entities the bot works with, shared by the renderer, the store and the handlers. */
module Domain {

  /** Telegram's numeric `ctx.from.id`. */
  type UserId = int

  /** A link as held in the pending map and in a collection: `{url, title, category}`. */
  datatype Link = Link(url: string, title: string, category: string)

  /** One document of the collection store: `{userId, collectionName, links}`. */
  datatype Record = Record(userId: UserId, collectionName: string, links: seq<Link>)

  /** The fixed category list: both the classification targets and the section order. */
  const Categories: seq<string> := ["Articles & News", "Releases", "Libs & Demos", "Silly stuff"]

  predicate IsCategory(s: string)
  {
    s in Categories
  }

  /** The ways a handler fails; in the bot each one is an uncaught TypeError. */
  datatype BotError =
    | NoTitleTag     // `body.match(titleRegex)` returned null, so `.pop()` throws
    | NoPendingLink  // `memoryStore[userId]` is undefined, so setting `.category` throws
    | NoCollection   // `db.findOne` found nothing, so destructuring `{links}` throws

  datatype Option<+T> = None | Some(value: T)

  datatype Result<+T, +E> = Ok(value: T) | Err(error: E)
}
