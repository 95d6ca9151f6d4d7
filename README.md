# bxjs-telegram-bot link collector, modelled in Dafny

The bot collects links over Telegram. A user starts a collection with
`new collection <name>`. Each message that holds a URL becomes the user's *pending link*: the
page's `<title>` is fetched and the user is asked for a category. Sending one of the four
category names files the pending link into the user's collection. `generate markdown` (or
`generate preview`) renders the collection as a Markdown document with one section per category.

The model covers the part of `index.js` that has behaviour of its own:

- `sanitizeTitle`: every run of `\n`, `\r`, `\t` becomes one space (`Titles`);
- the title step of the URL handler: the last `<title>` match, its first literal `<title>` and
  first literal `</title>` removed, then entity-decoded (`Titles`, built on `JsStrings`, which
  models JavaScript's `String.prototype.replace` with a string pattern);
- `generateMarkdown`: group the links by category and emit the four sections in the order of
  `categories` (`Markdown`, and `Conversation.Render` for the lookup of the user's document);
- the handlers for a new collection, a URL and a category name. Two stores are involved: the
  pending map `memoryStore` and the collection store `db`, whose remove-all, insert, `$push`
  and `findOne` operations are in `Store`. `Conversation` gives each handler as a function from
  state to next state and reply. `Bot.LinkBot` is a class whose `memoryStore` and `db` fields
  the handler methods update in place. Each method is proved to do exactly what its
  `Conversation` function says, and to keep the store invariant `Conversation.Inv`.

Modules: `Domain` (entities, the category list, `Option`/`Result`, the error kinds),
`JsStrings`, `Titles`, `Markdown`, `Store`, `Conversation`, `Bot`.

Some behaviour of the code worth noting, which the model keeps:

- the code takes the **last** title match (`pop()`);
- the title is sanitised only when a document is rendered, not when the link is ingested. The
  "Ready to save" reply and the stored title are the decoded title as it is;
- classifying does **not** clear the pending link. Sending the category again saves the same
  link again (`Conversation.RepeatedCategorySavesAgain`);
- classifying when the user has no collection document succeeds and replies, but the
  `$push` matches nothing, so that message saves nothing (`Conversation.Classify`,
  `Store.PushLink`). The link, now carrying the category, stays pending: after
  `new collection`, the same category message saves it, until another URL replaces it.

Failures that the code lets escape as uncaught `TypeError`s are modelled as `Err` results:
no title match (`NoTitleTag`), no pending link (`NoPendingLink`), no collection document
(`NoCollection`). In each case the state is left unchanged.

## Model

| member | source | states |
|---|---|---|
| JsStrings.ReplaceFirst | index.js:69 | `s.replace(pat, rep)` with a string pattern and a replacement without `$` patterns (index.js:69 replaces with `""`): if `pat` does not occur the string is unchanged, otherwise exactly the leftmost occurrence is replaced and everything around it is kept |
| Titles.SanitizeTitle | index.js:23 | sanitising never lengthens a title |
| Titles.SanitizeTitleHasNoBreaks | index.js:23 | the sanitised title contains no `\n`, `\r` or `\t` |
| Titles.SanitizeTitleKeepsPlainText | index.js:23 | a title without those characters is returned unchanged |
| Titles.SanitizeTitleIdempotent | index.js:23 | sanitising twice gives the same as sanitising once |
| Titles.SanitizeTitleAppend | index.js:23 | when no run of breaks spans the seam, the title is sanitised piece by piece |
| Titles.SanitizeTitleKeepsChar | index.js:23 | every character other than a break is kept, in order, between the sanitised texts on its two sides |
| Titles.SanitizeTitleOfRun | index.js:23 | a run of breaks at the front becomes one space |
| Titles.SanitizeTitleCollapsesRun | index.js:23 | a maximal run of breaks, of any length, becomes exactly one space |
| Titles.StripTitleTagOfMatch | index.js:68-69 | the match `<title>t</title>` is stripped to exactly `t` when `t` contains no `</title>` |
| Titles.StripTitleTag | index.js:69 | a match holding neither lower-case tag comes back unchanged; the exact stripping is `StripTitleTagOfMatch`, and `StripTitleTagKeepsUpperCaseMatch` covers upper-case tags |
| Titles.StripTitleTagKeepsUpperCaseTags | index.js:68-69 | any match with no lower-case `t` anywhere, whatever its shape, including tags in different mixed cases such as `<TiTLE>Home</TITLe>`, is left whole by the case-sensitive `replace` calls |
| Titles.StripTitleTagKeepsUpperCaseMatch | index.js:68-69 | the `/i` regex of line 14 also matches `<TITLE>t</TITLE>`; for any text `t` without a lower-case `<title>` or `</title>` of its own, the case-sensitive `replace` calls leave the whole match, tags included, as the title |
| Titles.ExtractTitle | index.js:68-69 | the title fails with `NoTitleTag` exactly when there is no match |
| Titles.ExtractTitleTakesLastMatch | index.js:68-69 | whatever the earlier matches, the title is the decoded text of the last one (`pop`) |
| Markdown.GroupOf | index.js:27 | a category's group is no longer than the link list |
| Markdown.GroupOfMembers | index.js:27 | a group holds exactly the links whose category is that category |
| Markdown.GroupOfAppend | index.js:27 | grouping distributes over concatenation, so links keep their insertion order inside a group |
| Markdown.LinkLinesAppend | index.js:31 | the bullets of two groups in a row are the bullets of each, in order |
| Markdown.DocumentOfFour | index.js:29-33 | the document over a four-element category list is its four sections in list order |
| Markdown.MarkdownOf | index.js:29-33 | for any links, the document is exactly the sections of the four categories in the order of `categories`, each a header `\n## <category>\n` followed by its bullets or the placeholder; the sections' contents are stated by `EmptyCategoryShowsPlaceholder`, `AppendedLinkIsLastInItsSection` and `EveryClassifiedLinkListedOnce` |
| Markdown.EmptyCategoryShowsPlaceholder | index.js:31 | a category that no link belongs to renders as its header and then ` - No links yet\n` |
| Markdown.AppendedLinkIsLastInItsSection | index.js:27-31 | an appended link becomes the last bullet `- [sanitizeTitle(title)](url)\n` of its category, replacing the placeholder if it is the first; every other section is unchanged |
| Markdown.DocumentDependsOnlyOnGroups | index.js:27-33 | two link lists with the same per-category groups give the same document, whatever the order in which categories are interleaved |
| Markdown.MarkdownIgnoresUnknownCategories | index.js:27-33 | links whose category is not one of the four never affect the document |
| Markdown.GroupsPartition | index.js:27 | with four distinct categories covering every link, the four groups together are the links as a multiset: each link, counted with its repetitions, lands in exactly one group |
| Markdown.EveryClassifiedLinkListedOnce | index.js:27-33 | when every link has one of the four categories, the groups of the four sections together are the links as a multiset, so each link is listed exactly as often as it was saved |
| Markdown.EmptyCollectionMarkdown | index.js:29-33 | an empty collection renders all four headers, each followed by the placeholder |
| Markdown.SingleLinkMarkdown | index.js:29-33 | a single classified link is listed under its own category and every other category shows the placeholder |
| Store.RemoveAll | index.js:54 | remove with `multi: true` leaves the user with no document and everyone else's untouched |
| Store.Insert | index.js:57 | insert appends the record to its user's documents only |
| Store.PushLink | index.js:86 | `$push` appends the link to the first matching document and changes nothing else; with no match the store is unchanged |
| Store.FindOne | index.js:25 | `findOne` yields nothing exactly when the user has no document, and otherwise the first one |
| Store.ResetLeavesOneRecord | index.js:54-57 | remove-all then insert leaves exactly the inserted record for that user |
| Conversation.NewCollectionReply | index.js:59 | the reply is a fixed text of 34 characters followed by exactly the collection name |
| Conversation.ReadyReply | index.js:75-76 | the reply holds the title, exactly, between double quotes, and puts the question on a new line |
| Conversation.SavedReply | index.js:88 | the reply names the category at a fixed place and ends with exactly the title |
| Conversation.NewCollection | index.js:49-60 | a new collection leaves the user exactly one empty document `{userId, name, links: []}`; other users' documents and the pending map are untouched; the reply names the collection |
| Conversation.IngestUrl | index.js:61-77 | without a title match the handler fails with `NoTitleTag`; otherwise the pending entry becomes `{url: firstUrl, title, category: ''}`, overwriting any previous one, other users' entries and `db` are unchanged, and the reply quotes the title |
| Conversation.Classify | index.js:79-90 | without a pending link the handler fails with `NoPendingLink`; otherwise the pending entry takes the category and stays pending, the link is pushed to the user's document, and the reply names category and title |
| Conversation.Render | index.js:24-36 | rendering fails with `NoCollection` exactly when the user has no document |
| Conversation.NewCollectionKeepsInv | index.js:54-57 | a new collection keeps the store invariant: one document per user, keyed by that user, holding only categorised links |
| Conversation.IngestUrlKeepsInv | index.js:73 | ingesting keeps the store invariant |
| Conversation.ClassifyKeepsInv | index.js:82-86 | classifying into one of the four categories keeps the store invariant |
| Conversation.NewCollectionRendersEmpty | index.js:54-57 | right after a new collection, the user's document is the empty-collection document |
| Conversation.CollectThenRender | index.js:68-88 | new collection, a URL whose page title is `t`, then category `c`: the reply names `c` and the decoded title, and the document lists `- [sanitizeTitle(decode(t))](url)` under `c` and the placeholder under the other three |
| Conversation.LaterUrlReplacesPending | index.js:73 | a second URL whose page has a title, sent before any category, leaves the same state as if the first had never been sent (without a title the second handler fails and the first link stays pending) |
| Conversation.RepeatedCategorySavesAgain | index.js:82-86 | sending the category twice appends the same link twice, because the pending entry is not cleared |
| Conversation.RenderListsEverySavedLink | index.js:25-33 | under the invariant, the groups of the four sections of the user's document are, as a multiset, exactly the links saved in it |
| Bot.LinkBot.constructor | index.js:17 | a started bot has no pending links and the persisted store |
| Bot.LinkBot.NewCollection | index.js:49-60 | removes and inserts in `db` in place, with exactly the effect and reply of `Conversation.NewCollection`, keeping the invariant |
| Bot.LinkBot.IngestUrl | index.js:61-77 | writes `memoryStore` in place, with exactly the effect and reply of `Conversation.IngestUrl`; on failure nothing changes |
| Bot.LinkBot.Classify | index.js:79-90 | updates the pending entry's category and pushes to `db` in place, with exactly the effect and reply of `Conversation.Classify`; on failure nothing changes |
| Bot.LinkBot.GenerateMarkdown | index.js:92-102 | reads `db` without changing it and returns what `Conversation.Render` gives |

## Left out

- Telegram transport is not modelled. This covers creating the bot from `BOT_TOKEN`, the `/start` and `/help` replies, `hears` dispatch and handler precedence, reply keyboards, `Extra` options and `startPolling`. Each handler is a method that returns its reply text.
- `generate preview` differs from `generate markdown` only in the reply options passed to Telegram, so both are `Bot.LinkBot.GenerateMarkdown`.
- The network fetch of the page is not modelled. The URL handler takes the list of `<title>` matches of the fetched body as input, and an empty list stands for `match` returning null. A failed fetch is not modelled.
- The `titleRegex` semantics (flags `g`, `i`, `m`; non-greedy; `.` not matching line terminators) are not modelled. Only the stripping of a given match is.
- URL detection with `url-regex` is a library regex. The first URL is a parameter.
- `ent.decode` is a library function. It is the parameter `decode`, about which nothing is assumed.
- The persistence internals of `./db` are not modelled; db.js is not part of this model. Only the effects of remove-all, insert, `$push` and `findOne` are, and `$push` without options is taken to update the first matching document. Under `Conversation.Inv` a user never has more than one document, so "first" and "every" agree.
- At index.js:82-86 the pending object and the pushed link are one JavaScript object. The model keeps them as separate values, so it assumes the store stores a copy of what it is given. If the store kept the pushed object by reference, a second category message with a different category would also relabel the link already saved; the model does not capture that. `Conversation.RepeatedCategorySavesAgain` repeats the same category, so it holds either way.
- Asynchrony and races between handlers of the same user are not modelled. Each handler runs to completion, so the reply of `Bot.LinkBot.Classify` reads the title back from `memoryStore` after its own push.
- The uncaught errors are not modelled as crashes or logs. Each one is an `Err` result with the state unchanged, and no reply is sent.
- JsStrings.ReplaceFirst: does not expand the `$&`, `$$`, `` $` `` and `$'` patterns that JavaScript's `replace` interprets in a replacement string, so it is JavaScript's `replace` only for a replacement without `$`. The bot only ever replaces with the empty string.
- The persisted store is taken to have been written only by these handlers, one at a time. `Bot.LinkBot.constructor` therefore requires it to satisfy `Conversation.Inv` (one document per user, holding only categorised links); the code itself does not check this at start-up.
