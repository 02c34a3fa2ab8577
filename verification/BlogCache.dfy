/** The trigger-invalidated cache of cache_interface.h, and what it means for a cached object to
    agree with the tables. */
module BlogCache {
  import opened CacheTags
  import opened BlogTables
  import FN = FormatNumber

  /** A listed post, as a summary page and as an RSS feed shows it. */
  datatype Item = Item(id: nat, title: string, abstract_: string, hasContent: bool, publish: int, commentCount: nat)

  datatype FeedItem = FeedItem(id: nat, title: string, abstract_: string, hasContent: bool)

  datatype CommentView = CommentView(id: nat, author: string, url: string, time: int, content: string)

  datatype CommentItem = CommentItem(id: nat, postId: nat, author: string, content: string)

  datatype PostView = PostView(title: string, abstract_: string, content: string, publish: int,
                               comments: seq<CommentView>)

  datatype PageLink = PageLink(id: nat, title: string)

  /** What the skin puts around every blog page: the texts of the blog, and the sidebar frame with
      its list of static pages and the copyright line. */
  datatype Chrome = Chrome(info: Info, links: seq<PageLink>, copyright: string)

  datatype Value =
    | Listing(items: seq<Item>, chrome: Chrome)
    | Feed(posts: seq<FeedItem>, info: Info)
    | CommentFeed(newest: seq<CommentItem>, info: Info)
    | PostPage(view: PostView, chrome: Chrome)
    | StaticView(title: string, content: string, chrome: Chrome)
    | Settings(info: Info)
    | Sidebar(links: seq<PageLink>)
    | SideFrame(links: seq<PageLink>, copyright: string)
    | Frame(text: string)
    | Count(n: nat)

  datatype Entry = Entry(value: Value, triggers: set<Tag>)

  type Cache = map<Tag, Entry>

  /** `rise`: drop every entry that depends on the trigger. */
  function Rise(c: Cache, t: Tag): Cache {
    map k | k in c && t !in c[k].triggers :: c[k]
  }

  function RiseAll(c: Cache, ts: set<Tag>): Cache {
    map k | k in c && c[k].triggers !! ts :: c[k]
  }

  lemma RiseOneMore(c: Cache, ts: set<Tag>, t: Tag)
    ensures Rise(RiseAll(c, ts), t) == RiseAll(c, ts + {t})
    ensures RiseAll(c, {}) == c
  {
  }

  /** The cache and the triggers collected for the page being built. */
  datatype Session = Session(cache: Cache, ctx: set<Tag>) {
    function AddTriggers(ts: set<Tag>): Session {
      Session(cache, ctx + ts)
    }

    /** Fetching an object adds its triggers to the page. */
    function Fetched(k: Tag): Session
      requires k in cache
    {
      AddTriggers(cache[k].triggers)
    }

    /** Storing an object makes it depend on its own key, and the page on all of them. */
    function Stored(k: Tag, v: Value, ts: set<Tag>): Session {
      Session(cache[k := Entry(v, ts + {k})], ctx + ts + {k})
    }

    function PageStored(k: Tag, v: Value): Cache {
      cache[k := Entry(v, ctx + {k})]
    }
  }

  /** Raising a trigger drops a page exactly when it is the key of the page or was added while the
      page was built, be it directly or, in the next lemmas, by fetching an object that it drops
      too, or by storing one that depends on it. */
  lemma RiseReachesPages(s: Session, k: Tag, v: Value, t: Tag)
    ensures k in Rise(s.PageStored(k, v), t) <==> t != k && t !in s.ctx
  {
  }

  lemma RiseReachesFetchers(s: Session, k: Tag, v: Value, t: Tag, k0: Tag)
    requires k0 in s.cache
    ensures k in Rise(s.Fetched(k0).PageStored(k, v), t) <==> t != k && t !in s.ctx && k0 in Rise(s.cache, t)
  {
  }

  lemma RiseReachesStorers(s: Session, k: Tag, v: Value, t: Tag, k0: Tag, v0: Value, ts: set<Tag>)
    ensures k in Rise(s.Stored(k0, v0, ts).PageStored(k, v), t) <==> t != k && t !in s.ctx && t != k0 && t !in ts
  {
  }

  function CatTags(cs: set<nat>): set<Tag> {
    set c | c in cs :: CatTag(Id(c))
  }

  function PostTags(ids: seq<nat>): set<Tag> {
    set id | id in ids :: PostTag(Id(id))
  }

  /** The triggers of the sidebar's data, and of a page that embeds the sidebar. */
  function SideTriggers(db: Db): set<Tag> {
    {AllPages, AllCats, GeneralInfo} + CatTags(db.cats.Keys)
  }

  function PageTriggers(db: Db): set<Tag> {
    SideTriggers(db) + {SidebarInfo, SidebarFrame, Options}
  }

  // ----- agreement with the tables

  function ItemOf(db: Db, id: nat): Item
    requires id in db.posts
  {
    var p := db.posts[id];
    Item(id, p.title, p.abstract_, p.content != "", p.publish, p.commentCount)
  }

  function FeedItemOf(db: Db, id: nat): FeedItem
    requires id in db.posts
  {
    var p := db.posts[id];
    FeedItem(id, p.title, p.abstract_, p.content != "")
  }

  predicate FeedItemOk(db: Db, i: FeedItem) {
    i.id in db.posts && db.posts[i.id].isOpen && i == FeedItemOf(db, i.id)
  }

  /** The post is there, published, and every listed column is current. */
  predicate ItemOk(db: Db, i: Item) {
    i.id in db.posts && db.posts[i.id].isOpen && i == ItemOf(db, i.id)
  }

  /** `rows` lists exactly the open pages, in some order. */
  ghost predicate IsOpenList(pages: map<nat, StaticPage>, rows: seq<PageLink>) {
    && (forall i :: 0 <= i < |rows| ==> OpenRow(pages, rows[i]))
    && (forall i, j :: 0 <= i < j < |rows| ==> rows[i].id != rows[j].id)
    && (forall id :: id in pages && pages[id].isOpen ==> PageLink(id, pages[id].title) in rows)
  }

  predicate OpenRow(pages: map<nat, StaticPage>, row: PageLink) {
    row.id in pages && pages[row.id].isOpen && row.title == pages[row.id].title
  }

  function ViewOf(c: Comment, id: nat): CommentView {
    CommentView(id, c.author, c.url, c.time, c.content)
  }

  /** `rows` lists exactly the comments of the post, oldest first. */
  ghost predicate IsCommentList(comments: map<nat, Comment>, post: nat, rows: seq<CommentView>) {
    && (forall i :: 0 <= i < |rows| ==> CommentRow(comments, post, rows[i]))
    && (forall i, j :: 0 <= i < j < |rows| ==> rows[i].id != rows[j].id && rows[i].time <= rows[j].time)
    && (forall c :: c in comments && comments[c].postId == post ==> ViewOf(comments[c], c) in rows)
  }

  predicate CommentRow(comments: map<nat, Comment>, post: nat, row: CommentView) {
    row.id in comments && comments[row.id].postId == post && row == ViewOf(comments[row.id], row.id)
  }

  function NewsOf(c: Comment, id: nat): CommentItem {
    CommentItem(id, c.postId, c.author, c.content)
  }

  /** `rows` are the ten comments with the largest ids, or all if there are fewer. */
  ghost predicate IsNewest(comments: map<nat, Comment>, rows: seq<CommentItem>) {
    && |rows| <= 10
    && (forall i :: 0 <= i < |rows| ==> rows[i].id in comments && rows[i] == NewsOf(comments[rows[i].id], rows[i].id))
    && (forall i, j :: 0 <= i < j < |rows| ==> rows[i].id > rows[j].id)
    && (forall c :: c in comments ==> NewsOf(comments[c], c) in rows || (|rows| == 10 && c < rows[9].id))
  }

  ghost predicate PostFresh(db: Db, id: nat, v: PostView) {
    && id in db.posts && db.posts[id].isOpen
    && v.title == db.posts[id].title && v.abstract_ == db.posts[id].abstract_ && v.content == db.posts[id].content
    && v.publish == db.posts[id].publish
    && IsCommentList(db.comments, id, v.comments)
  }

  predicate Canonical(sid: string) {
    IsSid(sid) && sid == Id(FN.ParseDigits(sid))
  }

  function Atoi(sid: string): nat
    requires IsSid(sid)
  {
    FN.ParseDigits(sid)
  }

  /** The list of static pages and the copyright line around a page are current, and they and the
      other texts are guarded by triggers. */
  ghost predicate ChromeOk(db: Db, c: Chrome, triggers: set<Tag>) {
    && Options in triggers && AllPages in triggers
    && c.info.copyright == c.copyright == db.info.copyright && IsOpenList(db.pages, c.links)
  }

  ghost predicate ItemsOk(db: Db, items: seq<Item>, triggers: set<Tag>) {
    forall i :: 0 <= i < |items| ==> ItemOk(db, items[i]) && PostTag(Id(items[i].id)) in triggers
  }

  ghost predicate FeedOk(db: Db, posts: seq<FeedItem>, triggers: set<Tag>) {
    forall i :: 0 <= i < |posts| ==> FeedItemOk(db, posts[i]) && PostTag(Id(posts[i].id)) in triggers
  }

  /** No post twice, and the latest first. */
  ghost predicate Ranked(db: Db, ids: seq<nat>) {
    forall i, j :: 0 <= i < j < |ids| ==>
      ids[i] != ids[j]
      && (ids[i] in db.posts && ids[j] in db.posts ==> db.posts[ids[i]].publish >= db.posts[ids[j]].publish)
  }

  /** The post satisfies the query and, in the listing of a category, is in that category. */
  predicate Belongs(db: Db, cat: nat, q: string, id: nat) {
    id in db.posts && Matches(db.posts[id], q) && (cat != 0 ==> (id, cat) in db.rels)
  }

  function ItemIds(items: seq<Item>): (ids: seq<nat>)
    ensures |ids| == |items| && forall i :: 0 <= i < |items| ==> ids[i] == items[i].id
  {
    seq(|items|, i requires 0 <= i < |items| => items[i].id)
  }

  function FeedIds(posts: seq<FeedItem>): (ids: seq<nat>)
    ensures |ids| == |posts| && forall i :: 0 <= i < |posts| ==> ids[i] == posts[i].id
  {
    seq(|posts|, i requires 0 <= i < |posts| => posts[i].id)
  }

  ghost predicate AllBelong(db: Db, cat: nat, q: string, ids: seq<nat>) {
    forall i :: 0 <= i < |ids| ==> Belongs(db, cat, q, ids[i])
  }

  /** The text of the largest category id, empty when there is none. */
  predicate MaxOk(cats: map<nat, string>, text: string) {
    if cats == map[] then text == "" else exists m :: m in cats && text == Id(m) && forall c :: c in cats ==> c <= m
  }

  ghost predicate ListingOk(db: Db, cat: nat, q: string, items: seq<Item>, triggers: set<Tag>) {
    && CatTag(Id(cat)) in triggers && (cat != 0 ==> cat in db.cats)
    && ItemsOk(db, items, triggers) && Ranked(db, ItemIds(items)) && AllBelong(db, cat, q, ItemIds(items))
  }

  ghost predicate RankedFeedOk(db: Db, posts: seq<FeedItem>, triggers: set<Tag>) {
    FeedOk(db, posts, triggers) && Ranked(db, FeedIds(posts))
  }

  /** What a cached object promises, by key.  A post is only promised to be fresh, and the posts of
      a category feed to be in the category, under the canonical spelling of the id; a category
      name only when not empty. */
  ghost predicate EntryOk(db: Db, k: Tag, e: Entry) {
    && k in e.triggers && Proper(k)
    && match k
       case SummaryTag(cat, _, q) =>
         e.value.Listing? && ChromeOk(db, e.value.chrome, e.triggers)
             && ListingOk(db, cat, q, e.value.items, e.triggers)
       case RssPosts =>
         e.value.Feed? && Options in e.triggers && RankedFeedOk(db, e.value.posts, e.triggers)
       case RssCat(sid) =>
         && e.value.Feed? && Options in e.triggers && RankedFeedOk(db, e.value.posts, e.triggers)
         && e.triggers == {CatTag(sid), Options, k} + PostTags(FeedIds(e.value.posts))
         && (Canonical(sid) ==> AllBelong(db, Atoi(sid), "", FeedIds(e.value.posts)))
       case AllComments =>
         e.value.CommentFeed? && Options in e.triggers && IsNewest(db.comments, e.value.newest)
       case PostTag(sid) =>
         && e.value.PostPage? && ChromeOk(db, e.value.chrome, e.triggers) && e.triggers == PageTriggers(db) + {k}
         && (Canonical(sid) ==> PostFresh(db, Atoi(sid), e.value.view))
       case PageTag(sid) =>
         && e.value.StaticView? && ChromeOk(db, e.value.chrome, e.triggers) && e.triggers == PageTriggers(db) + {k}
         && Atoi(sid) in db.pages && db.pages[Atoi(sid)] == StaticPage(e.value.title, e.value.content, true)
       case Options => e.value.Settings? && e.value.info.copyright == db.info.copyright && e.triggers == {Options}
       case SidebarInfo =>
         e.value.Sidebar? && IsOpenList(db.pages, e.value.links) && e.triggers == SideTriggers(db) + {SidebarInfo}
       case SidebarFrame =>
         && e.value.SideFrame? && IsOpenList(db.pages, e.value.links) && e.value.copyright == db.info.copyright
         && e.triggers == PageTriggers(db)
       case MaxCatId => e.value.Frame? && AllCats in e.triggers && MaxOk(db.cats, e.value.text)
       case CatName(c) => e.value.Frame? && e.triggers == {CatTag(Id(c)), k}
                          && (e.value.text != "" ==> c in db.cats && db.cats[c] == e.value.text)
       case CatCount(_, _) => e.value.Count?
       case _ => false
  }

  ghost predicate CacheOk(db: Db, c: Cache) {
    forall k :: k in c ==> EntryOk(db, k, c[k])
  }

  // ----- raising enough triggers keeps the cache right

  ghost predicate PostCovered(db: Db, db': Db, ts: set<Tag>, p: nat) {
    p in db.posts && PostTag(Id(p)) !in ts ==>
      && p in db'.posts && db'.posts[p] == db.posts[p]
      && forall c :: CommentSame(db.comments, db'.comments, p, c)
  }

  /** Row `c` is a comment of `p` in both tables or in neither, and the same one. */
  predicate CommentSame(a: map<nat, Comment>, b: map<nat, Comment>, p: nat, c: nat) {
    && (c in a && a[c].postId == p ==> c in b && b[c] == a[c])
    && (c in b && b[c].postId == p ==> c in a && a[c].postId == p)
  }

  predicate PageCovered(db: Db, db': Db, ts: set<Tag>, i: nat) {
    AllPages !in ts ==>
      && (i in db.pages && db.pages[i].isOpen ==> i in db'.pages && db'.pages[i] == db.pages[i])
      && (i in db'.pages && db'.pages[i].isOpen ==> i in db.pages && db.pages[i].isOpen)
  }

  predicate RelCovered(db: Db, db': Db, ts: set<Tag>, r: (nat, nat)) {
    r in db.rels && PostTag(Id(r.0)) !in ts && CatTag(Id(r.1)) !in ts ==> r in db'.rels
  }

  /** The triggers raised cover every row that cached objects depend on and that changed. */
  ghost predicate Covered(db: Db, db': Db, ts: set<Tag>) {
    && (forall p :: PostCovered(db, db', ts, p))
    && (forall i :: PageCovered(db, db', ts, i))
    && (forall r :: RelCovered(db, db', ts, r))
    && (AllComments !in ts ==> db'.comments == db.comments)
    && (Options !in ts ==> db'.info.copyright == db.info.copyright)
    && (AllCats !in ts ==> db'.cats == db.cats)
    && (forall c :: c in db.cats && CatTag(Id(c)) !in ts ==> c in db'.cats && db'.cats[c] == db.cats[c])
  }

  lemma ItemsKept(db: Db, db': Db, ts: set<Tag>, items: seq<Item>, triggers: set<Tag>)
    requires Covered(db, db', ts) && triggers !! ts && ItemsOk(db, items, triggers)
    ensures ItemsOk(db', items, triggers)
  {
    forall i | 0 <= i < |items|
      ensures ItemOk(db', items[i])
    {
      assert PostCovered(db, db', ts, items[i].id);
    }
  }

  lemma FeedKept(db: Db, db': Db, ts: set<Tag>, posts: seq<FeedItem>, triggers: set<Tag>)
    requires Covered(db, db', ts) && triggers !! ts && FeedOk(db, posts, triggers)
    ensures FeedOk(db', posts, triggers)
  {
    forall i | 0 <= i < |posts|
      ensures FeedItemOk(db', posts[i])
    {
      assert PostCovered(db, db', ts, posts[i].id);
    }
  }

  lemma RankedKept(db: Db, db': Db, ts: set<Tag>, ids: seq<nat>)
    requires Covered(db, db', ts) && Ranked(db, ids)
    requires forall i :: 0 <= i < |ids| ==> ids[i] in db.posts && PostTag(Id(ids[i])) !in ts
    ensures Ranked(db', ids)
  {
    forall i | 0 <= i < |ids|
      ensures ids[i] in db'.posts && db'.posts[ids[i]] == db.posts[ids[i]]
    {
      assert PostCovered(db, db', ts, ids[i]);
    }
  }

  lemma BelongKept(db: Db, db': Db, ts: set<Tag>, cat: nat, q: string, ids: seq<nat>)
    requires Covered(db, db', ts) && AllBelong(db, cat, q, ids) && CatTag(Id(cat)) !in ts
    requires forall i :: 0 <= i < |ids| ==> PostTag(Id(ids[i])) !in ts
    ensures AllBelong(db', cat, q, ids)
  {
    forall i | 0 <= i < |ids|
      ensures Belongs(db', cat, q, ids[i])
    {
      assert PostCovered(db, db', ts, ids[i]) && RelCovered(db, db', ts, (ids[i], cat));
    }
  }

  lemma ListingKept(db: Db, db': Db, ts: set<Tag>, cat: nat, q: string, items: seq<Item>, triggers: set<Tag>)
    requires Covered(db, db', ts) && triggers !! ts && ListingOk(db, cat, q, items, triggers)
    ensures ListingOk(db', cat, q, items, triggers)
  {
    ItemsKept(db, db', ts, items, triggers);
    RankedKept(db, db', ts, ItemIds(items));
    BelongKept(db, db', ts, cat, q, ItemIds(items));
  }

  lemma RankedFeedKept(db: Db, db': Db, ts: set<Tag>, posts: seq<FeedItem>, triggers: set<Tag>)
    requires Covered(db, db', ts) && triggers !! ts && RankedFeedOk(db, posts, triggers)
    ensures RankedFeedOk(db', posts, triggers)
  {
    FeedKept(db, db', ts, posts, triggers);
    RankedKept(db, db', ts, FeedIds(posts));
  }

  lemma LinksKept(db: Db, db': Db, ts: set<Tag>, links: seq<PageLink>)
    requires Covered(db, db', ts) && AllPages !in ts && IsOpenList(db.pages, links)
    ensures IsOpenList(db'.pages, links)
  {
    forall i | 0 <= i < |links|
      ensures OpenRow(db'.pages, links[i])
    {
      assert OpenRow(db.pages, links[i]);
      assert PageCovered(db, db', ts, links[i].id);
    }
    forall id | id in db'.pages && db'.pages[id].isOpen
      ensures PageLink(id, db'.pages[id].title) in links
    {
      assert PageCovered(db, db', ts, id);
    }
  }

  lemma ChromeKept(db: Db, db': Db, ts: set<Tag>, c: Chrome, triggers: set<Tag>)
    requires Covered(db, db', ts) && triggers !! ts && ChromeOk(db, c, triggers)
    ensures ChromeOk(db', c, triggers)
  {
    LinksKept(db, db', ts, c.links);
  }

  lemma CommentsKept(db: Db, db': Db, ts: set<Tag>, id: nat, v: PostView)
    requires Covered(db, db', ts) && PostTag(Id(id)) !in ts && PostFresh(db, id, v)
    ensures PostFresh(db', id, v)
  {
    assert PostCovered(db, db', ts, id);
    forall i | 0 <= i < |v.comments|
      ensures CommentRow(db'.comments, id, v.comments[i])
    {
      assert CommentRow(db.comments, id, v.comments[i]);
      assert CommentSame(db.comments, db'.comments, id, v.comments[i].id);
    }
    forall c | c in db'.comments && db'.comments[c].postId == id
      ensures ViewOf(db'.comments[c], c) in v.comments
    {
      assert CommentSame(db.comments, db'.comments, id, c);
    }
  }

  lemma EntryKept(db: Db, db': Db, ts: set<Tag>, k: Tag, e: Entry)
    requires Covered(db, db', ts) && EntryOk(db, k, e) && e.triggers !! ts
    ensures EntryOk(db', k, e)
  {
    match k
    case SummaryTag(cat, _, q) =>
      ChromeKept(db, db', ts, e.value.chrome, e.triggers);
      ListingKept(db, db', ts, cat, q, e.value.items, e.triggers);
    case RssPosts => RankedFeedKept(db, db', ts, e.value.posts, e.triggers);
    case RssCat(sid) =>
      RankedFeedKept(db, db', ts, e.value.posts, e.triggers);
      if Canonical(sid) {
        BelongKept(db, db', ts, Atoi(sid), "", FeedIds(e.value.posts));
      }
    case PostTag(sid) =>
      ChromeKept(db, db', ts, e.value.chrome, e.triggers);
      if Canonical(sid) {
        CommentsKept(db, db', ts, Atoi(sid), e.value.view);
      }
    case PageTag(sid) =>
      ChromeKept(db, db', ts, e.value.chrome, e.triggers);
      assert PageCovered(db, db', ts, Atoi(sid));
    case SidebarInfo => LinksKept(db, db', ts, e.value.links);
    case SidebarFrame => LinksKept(db, db', ts, e.value.links);
    case _ =>
  }

  /** Cached objects stay right over any change of the tables whose triggers are raised. */
  lemma RiseKeepsFresh(db: Db, db': Db, ts: set<Tag>, c: Cache)
    requires CacheOk(db, c) && Covered(db, db', ts)
    ensures CacheOk(db', RiseAll(c, ts))
  {
    forall k | k in RiseAll(c, ts)
      ensures EntryOk(db', k, RiseAll(c, ts)[k])
    {
      EntryKept(db, db', ts, k, c[k]);
    }
  }

  /** The newest comments are determined by the table. */
  lemma NewestUnique(comments: map<nat, Comment>, a: seq<CommentItem>, b: seq<CommentItem>)
    requires IsNewest(comments, a) && IsNewest(comments, b)
    ensures a == b
  {
    forall i | 0 <= i < |a| && i < |b|
      ensures a[i].id == b[i].id
    {
      NewestAgree(comments, a, b, i);
    }
    NewestLength(comments, a, b);
    NewestLength(comments, b, a);
  }

  lemma NewestLength(comments: map<nat, Comment>, a: seq<CommentItem>, b: seq<CommentItem>)
    requires IsNewest(comments, a) && IsNewest(comments, b)
    requires forall i :: 0 <= i < |a| && i < |b| ==> a[i].id == b[i].id
    ensures |b| <= |a|
  {
    var k := if |b| > |a| then |a| else 0;
    assert |b| > k ==> NewsOf(comments[b[k].id], b[k].id) in a || (|a| == 10 && b[k].id < a[9].id);
  }

  lemma NewestAgree(comments: map<nat, Comment>, a: seq<CommentItem>, b: seq<CommentItem>, i: nat)
    requires IsNewest(comments, a) && IsNewest(comments, b) && i < |a| && i < |b|
    ensures a[i].id == b[i].id
  {
    if i > 0 {
      NewestAgree(comments, a, b, i - 1);
    }
    NewestNotBelow(comments, a, b, i);
    NewestNotBelow(comments, b, a, i);
  }

  lemma NewestNotBelow(comments: map<nat, Comment>, a: seq<CommentItem>, b: seq<CommentItem>, i: nat)
    requires IsNewest(comments, a) && IsNewest(comments, b) && i < |a| && i < |b|
    requires i > 0 ==> a[i - 1].id == b[i - 1].id
    ensures b[i].id <= a[i].id
  {
  }
}
