/**
 * The document `generateMarkdown` builds from a user's links: one section per entry of
 * `Categories`, in that order, each a header followed by the category's links or a
 * placeholder. Looking the links up in the store is `Conversation.Render`.
 */
module Markdown {
  import opened Domain
  import opened Titles

  /** `_.groupBy(links, it => it.category)[category]`: the links of `category`, in their order. */
  function GroupOf(links: seq<Link>, category: string): (group: seq<Link>)
    ensures |group| <= |links|
  {
    if links == [] then []
    else (if links[0].category == category then [links[0]] else []) + GroupOf(links[1..], category)
  }

  /** A group holds exactly the links of its category. */
  lemma {:induction false} GroupOfMembers(links: seq<Link>, category: string)
    ensures forall l :: l in GroupOf(links, category) <==> l in links && l.category == category
  {
    if links != [] {
      GroupOfMembers(links[1..], category);
      assert links == [links[0]] + links[1..];
    }
  }

  /** One bullet: `- [title](url)` with the title sanitised. */
  function LinkLine(link: Link): string
  {
    "- [" + SanitizeTitle(link.title) + "](" + link.url + ")\n"
  }

  /** The bullets of a group, concatenated (`map` then `reduce`). */
  function LinkLines(group: seq<Link>): string
  {
    if group == [] then "" else LinkLine(group[0]) + LinkLines(group[1..])
  }

  function Header(category: string): string
  {
    "\n## " + category + "\n"
  }

  const NoLinksLine: string := " - No links yet\n"

  /** What follows a header: the group's bullets, or the placeholder when the group is absent. */
  function SectionBody(links: seq<Link>, category: string): string
  {
    var group := GroupOf(links, category);
    if group != [] then LinkLines(group) else NoLinksLine
  }

  function Section(links: seq<Link>, category: string): string
  {
    Header(category) + SectionBody(links, category)
  }

  /** The sections of `categories`, in order, concatenated. */
  function Document(links: seq<Link>, categories: seq<string>): string
  {
    if categories == [] then "" else Section(links, categories[0]) + Document(links, categories[1..])
  }

  /**
   * The Markdown document of a collection's links: exactly four sections, in the order of
   * `Categories`, whatever the links.
   */
  function MarkdownOf(links: seq<Link>): (doc: string)
    ensures doc ==
      Section(links, Categories[0]) + Section(links, Categories[1]) +
      Section(links, Categories[2]) + Section(links, Categories[3])
  {
    DocumentOfFour(links, Categories);
    Document(links, Categories)
  }

  /** The links whose category is one of the four. */
  function Categorized(links: seq<Link>): (r: seq<Link>)
    ensures forall l :: l in r <==> l in links && IsCategory(l.category)
  {
    if links == [] then []
    else (if IsCategory(links[0].category) then [links[0]] else []) + Categorized(links[1..])
  }

  // ---------------------------------------------------------------------------------------
  // Properties of the document
  // ---------------------------------------------------------------------------------------

  /** A document over a non-empty category list is its first section, then the rest. */
  lemma DocumentCons(links: seq<Link>, categories: seq<string>)
    requires categories != []
    ensures Document(links, categories) == Section(links, categories[0]) + Document(links, categories[1..])
  {
  }

  /** A document over four categories is their four sections, in order. */
  lemma DocumentOfFour(links: seq<Link>, categories: seq<string>)
    requires |categories| == 4
    ensures Document(links, categories) ==
      Section(links, categories[0]) + Section(links, categories[1]) +
      Section(links, categories[2]) + Section(links, categories[3])
  {
    var c1 := categories[1..];
    var c2 := c1[1..];
    var c3 := c2[1..];
    DocumentCons(links, categories);
    DocumentCons(links, c1);
    DocumentCons(links, c2);
    DocumentCons(links, c3);
    assert c3[1..] == [];
    Concat4(Section(links, categories[0]), Section(links, c1[0]), Section(links, c2[0]), Section(links, c3[0]));
  }

  lemma Concat4(a: string, b: string, c: string, d: string)
    ensures a + (b + (c + (d + ""))) == a + b + c + d
  {
  }

  /** A category none of the links belongs to renders as the placeholder line. */
  lemma EmptyCategoryShowsPlaceholder(links: seq<Link>, category: string)
    requires forall l :: l in links ==> l.category != category
    ensures Section(links, category) == Header(category) + NoLinksLine
  {
    GroupOfNone(links, category);
  }

  lemma {:induction false} GroupOfNone(links: seq<Link>, category: string)
    requires forall l :: l in links ==> l.category != category
    ensures GroupOf(links, category) == []
  {
    if links != [] {
      assert links[0] in links;
      assert forall l :: l in links[1..] ==> l in links;
      GroupOfNone(links[1..], category);
    }
  }

  /** Grouping distributes over concatenation: order inside a category is insertion order. */
  lemma {:induction false} GroupOfAppend(a: seq<Link>, b: seq<Link>, category: string)
    ensures GroupOf(a + b, category) == GroupOf(a, category) + GroupOf(b, category)
  {
    if a == [] {
      assert a + b == b;
    } else {
      var head := if a[0].category == category then [a[0]] else [];
      assert (a + b)[0] == a[0] && (a + b)[1..] == a[1..] + b;
      GroupOfAppend(a[1..], b, category);
      var ga, gb := GroupOf(a[1..], category), GroupOf(b, category);
      assert GroupOf(a + b, category) == head + (ga + gb);
      assert head + (ga + gb) == (head + ga) + gb;
    }
  }

  /** The bullets of two groups in a row are the bullets of each. */
  lemma {:induction false} LinkLinesAppend(a: seq<Link>, b: seq<Link>)
    ensures LinkLines(a + b) == LinkLines(a) + LinkLines(b)
  {
    if a == [] {
      assert a + b == b;
    } else {
      assert (a + b)[0] == a[0] && (a + b)[1..] == a[1..] + b;
      LinkLinesAppend(a[1..], b);
    }
  }

  /**
   * A link appended to a collection renders as the last bullet of its own category (replacing
   * the placeholder if it is the first), and leaves every other section as it was.
   */
  lemma AppendedLinkIsLastInItsSection(links: seq<Link>, link: Link)
    ensures SectionBody(links + [link], link.category) ==
      (if GroupOf(links, link.category) == [] then "" else SectionBody(links, link.category)) + LinkLine(link)
    ensures forall c :: c != link.category ==> SectionBody(links + [link], c) == SectionBody(links, c)
  {
    GroupOfAppend(links, [link], link.category);
    assert GroupOf([link], link.category) == [link];
    LinkLinesAppend(GroupOf(links, link.category), [link]);
    assert LinkLines([link]) == LinkLine(link);
    forall c | c != link.category
      ensures SectionBody(links + [link], c) == SectionBody(links, c)
    {
      GroupOfAppend(links, [link], c);
      assert GroupOf([link], c) == [];
      assert GroupOf(links, c) + [] == GroupOf(links, c);
    }
  }

  /** The document depends on the links only through the groups of the listed categories. */
  lemma {:induction false} DocumentDependsOnlyOnGroups(a: seq<Link>, b: seq<Link>, categories: seq<string>)
    requires forall c :: c in categories ==> GroupOf(a, c) == GroupOf(b, c)
    ensures Document(a, categories) == Document(b, categories)
  {
    if categories != [] {
      assert categories[0] in categories;
      DocumentDependsOnlyOnGroups(a, b, categories[1..]);
    }
  }

  /** Links whose category is not one of the four never reach the document. */
  lemma MarkdownIgnoresUnknownCategories(links: seq<Link>)
    ensures MarkdownOf(links) == MarkdownOf(Categorized(links))
  {
    forall c | c in Categories
      ensures GroupOf(links, c) == GroupOf(Categorized(links), c)
    {
      GroupOfCategorized(links, c);
    }
    DocumentDependsOnlyOnGroups(links, Categorized(links), Categories);
  }

  lemma {:induction false} GroupOfCategorized(links: seq<Link>, category: string)
    requires IsCategory(category)
    ensures GroupOf(Categorized(links), category) == GroupOf(links, category)
  {
    if links != [] {
      var head := if IsCategory(links[0].category) then [links[0]] else [];
      GroupOfAppend(head, Categorized(links[1..]), category);
      GroupOfCategorized(links[1..], category);
      assert GroupOf(head, category) == if links[0].category == category then [links[0]] else [];
    }
  }

  /**
   * With four distinct categories covering every link, the four groups together are the
   * links: each link, counted with its repetitions, is in exactly one group.
   */
  lemma {:induction false} GroupsPartition(links: seq<Link>, c0: string, c1: string, c2: string, c3: string)
    requires c0 != c1 && c0 != c2 && c0 != c3 && c1 != c2 && c1 != c3 && c2 != c3
    requires forall l :: l in links ==> l.category in {c0, c1, c2, c3}
    ensures multiset(GroupOf(links, c0)) + multiset(GroupOf(links, c1)) +
            multiset(GroupOf(links, c2)) + multiset(GroupOf(links, c3)) == multiset(links)
  {
    if links != [] {
      var h, rest := links[0], links[1..];
      assert h in links;
      assert forall l :: l in rest ==> l in links;
      GroupsPartition(rest, c0, c1, c2, c3);
      assert links == [h] + rest;
      GroupOfHead(links, c0);
      GroupOfHead(links, c1);
      GroupOfHead(links, c2);
      GroupOfHead(links, c3);
      AddToItsGroup(h, rest, GroupOf(rest, c0), GroupOf(rest, c1), GroupOf(rest, c2), GroupOf(rest, c3),
                    c0, c1, c2, c3);
    }
  }

  /** Adding a link in front of four groups that partition `rest` extends its own group. */
  lemma AddToItsGroup(h: Link, rest: seq<Link>, g0: seq<Link>, g1: seq<Link>, g2: seq<Link>, g3: seq<Link>,
                      c0: string, c1: string, c2: string, c3: string)
    requires c0 != c1 && c0 != c2 && c0 != c3 && c1 != c2 && c1 != c3 && c2 != c3
    requires h.category in {c0, c1, c2, c3}
    requires multiset(g0) + multiset(g1) + multiset(g2) + multiset(g3) == multiset(rest)
    ensures multiset(if h.category == c0 then [h] + g0 else g0) +
            multiset(if h.category == c1 then [h] + g1 else g1) +
            multiset(if h.category == c2 then [h] + g2 else g2) +
            multiset(if h.category == c3 then [h] + g3 else g3) == multiset([h] + rest)
  {
    if h.category == c0 {
      assert multiset([h] + g0) + multiset(g1) + multiset(g2) + multiset(g3) == multiset([h] + rest);
    } else if h.category == c1 {
      assert multiset(g0) + multiset([h] + g1) + multiset(g2) + multiset(g3) == multiset([h] + rest);
    } else if h.category == c2 {
      assert multiset(g0) + multiset(g1) + multiset([h] + g2) + multiset(g3) == multiset([h] + rest);
    } else {
      assert multiset(g0) + multiset(g1) + multiset(g2) + multiset([h] + g3) == multiset([h] + rest);
    }
  }

  /** Grouping a non-empty list: its head, when it has the category, then the tail's group. */
  lemma GroupOfHead(links: seq<Link>, category: string)
    requires links != []
    ensures GroupOf(links, category) ==
      (if links[0].category == category then [links[0]] + GroupOf(links[1..], category)
       else GroupOf(links[1..], category))
  {
  }

  /** When every link is classified, the four sections list exactly the links, each once. */
  lemma EveryClassifiedLinkListedOnce(links: seq<Link>)
    requires forall l :: l in links ==> IsCategory(l.category)
    ensures multiset(GroupOf(links, Categories[0])) + multiset(GroupOf(links, Categories[1])) +
            multiset(GroupOf(links, Categories[2])) + multiset(GroupOf(links, Categories[3])) ==
            multiset(links)
  {
    var c0, c1, c2, c3 := Categories[0], Categories[1], Categories[2], Categories[3];
    assert |c0| == 15 && |c1| == 8 && |c2| == 12 && |c3| == 11;
    assert Categories == [c0, c1, c2, c3];
    GroupsPartition(links, c0, c1, c2, c3);
  }

  /** An empty collection renders every category with the placeholder. */
  lemma EmptyCollectionMarkdown(links: seq<Link>)
    requires |links| == 0
    ensures MarkdownOf(links) ==
      Header(Categories[0]) + NoLinksLine + Header(Categories[1]) + NoLinksLine +
      Header(Categories[2]) + NoLinksLine + Header(Categories[3]) + NoLinksLine
  {
    var h0, h1, h2, h3 := Header(Categories[0]), Header(Categories[1]),
                          Header(Categories[2]), Header(Categories[3]);
    Concat8(h0, NoLinksLine, h1, NoLinksLine, h2, NoLinksLine, h3, NoLinksLine);
  }

  lemma Concat8(a: string, b: string, c: string, d: string, e: string, f: string, g: string, h: string)
    ensures (a + b) + (c + d) + (e + f) + (g + h) == a + b + c + d + e + f + g + h
  {
  }

  /** A collection holding one classified link lists it under its category and nowhere else. */
  lemma SingleLinkMarkdown(link: Link)
    requires IsCategory(link.category)
    ensures forall c :: c in Categories ==>
      SectionBody([link], c) == if c == link.category then LinkLine(link) else NoLinksLine
  {
    AppendedLinkIsLastInItsSection([], link);
    assert [] + [link] == [link];
  }
}
