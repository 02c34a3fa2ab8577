/** Every request keeps the tables consistent and the cache in agreement with them, so both
    hold in every state that serial requests can reach. */
module BlogInvariant {
  import opened CacheTags
  import opened BlogTables
  import opened BlogCache
  import opened BlogState

  // ----- the triggers raised cover the rows changed

  /** A change that leaves comments, categories and pages alone. */
  lemma PostsCovered(db: Db, db': Db, ts: set<Tag>)
    requires db'.comments == db.comments && db'.cats == db.cats && db'.pages == db.pages && db'.info == db.info
    requires forall r :: RelCovered(db, db', ts, r)
    requires forall p :: p in db.posts && PostTag(Id(p)) !in ts ==> p in db'.posts && db'.posts[p] == db.posts[p]
    ensures Covered(db, db', ts)
  {
  }

  lemma RemovePostCovered(db: Db, id: nat)
    ensures Covered(db, RemovePost(db, id), {AllComments, PostTag(Id(id))})
  {
  }

  /** A change of comments of one post and a recount of that post. */
  lemma CommentsCovered(db: Db, comments: map<nat, Comment>, p: nat, db': Db)
    requires forall q, c :: q != p ==> CommentSame(db.comments, comments, q, c)
    requires db' == Recount(db.(comments := comments), p) || db' == db.(comments := comments)
    ensures Covered(db, db', {PostTag(Id(p)), AllComments})
  {
  }

  /** A change of categories and index rows. */
  lemma CatsCovered(db: Db, db': Db, ts: set<Tag>)
    requires db'.posts == db.posts && db'.comments == db.comments && db'.pages == db.pages && db'.info == db.info
    requires AllCats in ts && forall r :: RelCovered(db, db', ts, r)
    requires forall c :: c in db.cats && CatTag(Id(c)) !in ts ==> c in db'.cats && db'.cats[c] == db.cats[c]
    ensures Covered(db, db', ts)
  {
  }

  /** A change of one static page. */
  lemma PagesCovered(db: Db, db': Db, ts: set<Tag>, id: nat)
    requires db' == db.(pages := db'.pages)
    requires forall i :: i != id ==>
                (i in db.pages <==> i in db'.pages) && (i in db.pages ==> db'.pages[i] == db.pages[i])
    requires PageCovered(db, db', ts, id)
    ensures Covered(db, db', ts)
  {
  }

  // ----- handlers that change tables

  lemma ChangedOk(st: State, db: Db, ts: set<Tag>)
    requires Ok(st) && Consistent(db) && Covered(st.db, db, ts)
    ensures Ok(Changed(st, db, ts))
  {
    RiseKeepsFresh(st.db, db, ts, st.cache);
  }

  lemma SavePostOk(st: State, id: nat, f: PostForm, now: int, newId: nat)
    requires Ok(st) && (id == 0 ==> newId !in st.db.posts)
    ensures Ok(AfterSavePost(st, id, f, now, newId))
  {
    if id == 0 {
      if !f.remove {
        CreatePostConsistent(st.db, newId, f, now);
        PostsCovered(st.db, CreatePost(st.db, newId, f, now), CreateTriggers(st.db, f));
        ChangedOk(st, CreatePost(st.db, newId, f, now), CreateTriggers(st.db, f));
      }
    } else if id in st.db.posts {
      if f.remove {
        RemovePostConsistent(st.db, id);
        RemovePostCovered(st.db, id);
        ChangedOk(st, RemovePost(st.db, id), {AllComments, PostTag(Id(id))});
      } else {
        EditPostConsistent(st.db, id, f, now);
        PostsCovered(st.db, EditPost(st.db, id, f, now), EditTriggers(st.db, id, f));
        ChangedOk(st, EditPost(st.db, id, f, now), EditTriggers(st.db, id, f));
      }
    }
  }

  lemma PostbackOk(st: State, id: nat, send: bool, row: Comment, cid: nat)
    requires Ok(st) && cid !in st.db.comments
    ensures Ok(AfterPostback(st, id, send, row, cid))
  {
    if id in st.db.posts && st.db.posts[id].isOpen && send {
      var own := row.(postId := id);
      var comments := st.db.comments[cid := own];
      forall q, c | q != id
        ensures CommentSame(st.db.comments, comments, q, c)
      {
      }
      AddCommentConsistent(st.db, cid, own);
      CommentsCovered(st.db, comments, id, AddComment(st.db, cid, own));
      ChangedOk(st, AddComment(st.db, cid, own), {PostTag(Id(id)), AllComments});
    }
  }

  lemma SaveCommentOk(st: State, cid: nat, erase: bool, author: string, email: string, url: string, content: string)
    requires Ok(st)
    ensures Ok(AfterSaveComment(st, cid, erase, author, email, url, content))
  {
    if cid in st.db.comments {
      var p := st.db.comments[cid].postId;
      var ts := {PostTag(Id(p)), AllComments};
      var db' := if erase then EraseComment(st.db, cid) else EditComment(st.db, cid, author, email, url, content);
      forall q, c | q != p
        ensures CommentSame(st.db.comments, db'.comments, q, c)
      {
      }
      if erase {
        EraseCommentConsistent(st.db, cid);
      } else {
        EditCommentConsistent(st.db, cid, author, email, url, content);
      }
      CommentsCovered(st.db, db'.comments, p, db');
      ChangedOk(st, db', ts);
    }
  }

  lemma CategoriesOk(st: State, cat: nat, name: string, cascade: bool)
    requires Ok(st)
    ensures cat > 0 && cat !in st.db.cats ==> Ok(Changed(st, AddCat(st.db, cat, name), {AllCats}))
    ensures Ok(Changed(st, RenameCat(st.db, cat, name), {AllCats, CatTag(Id(cat))}))
    ensures Ok(AfterRemoveCategory(st, cat, cascade))
  {
    CatsConsistent(st.db, cat, name);
    var ts := {AllCats, CatTag(Id(cat))};
    if cat > 0 && cat !in st.db.cats {
      CatsCovered(st.db, AddCat(st.db, cat, name), {AllCats});
      ChangedOk(st, AddCat(st.db, cat, name), {AllCats});
    }
    CatsCovered(st.db, RenameCat(st.db, cat, name), ts);
    ChangedOk(st, RenameCat(st.db, cat, name), ts);
    CatsCovered(st.db, DropCat(st.db, cat), ts);
    ChangedOk(st, DropCat(st.db, cat), ts);
  }

  lemma SavePageOk(st: State, id: nat, title: string, content: string, remove: bool, changeStatus: bool, newId: nat)
    requires Ok(st) && (id == 0 ==> newId !in st.db.pages)
    ensures Ok(AfterSavePage(st, id, title, content, remove, changeStatus, newId))
  {
    if id == 0 {
      if !remove {
        var db' := PutPage(st.db, newId, StaticPage(title, content, changeStatus));
        var ts := if changeStatus then {AllPages} else {};
        PagesConsistent(st.db, db');
        PagesCovered(st.db, db', ts, newId);
        ChangedOk(st, db', ts);
      }
    } else if id in st.db.pages {
      var wasOpen := st.db.pages[id].isOpen;
      var isOpen := if changeStatus then !wasOpen else wasOpen;
      var db' := if remove then DropPage(st.db, id) else PutPage(st.db, id, StaticPage(title, content, isOpen));
      var ts := if (if remove then wasOpen else isOpen || changeStatus) then {PageTag(Id(id)), AllPages} else {};
      PagesConsistent(st.db, db');
      PagesCovered(st.db, db', ts, id);
      ChangedOk(st, db', ts);
    }
  }

  // ----- handlers that fill the cache

  lemma StoredOk(db: Db, s: Session, k: Tag, v: Value, ts: set<Tag>)
    requires CacheOk(db, s.cache) && EntryOk(db, k, Entry(v, ts + {k}))
    ensures CacheOk(db, s.Stored(k, v, ts).cache)
  {
  }

  lemma PageStoredOk(db: Db, s: Session, k: Tag, v: Value)
    requires CacheOk(db, s.cache) && EntryOk(db, k, Entry(v, s.ctx + {k}))
    ensures CacheOk(db, s.PageStored(k, v))
  {
  }

  lemma LoadInfoOk(db: Db, s: Session)
    requires CacheOk(db, s.cache)
    ensures var (s', info) := LoadInfo(db, s);
            CacheOk(db, s'.cache) && info.copyright == db.info.copyright && s'.ctx == s.ctx + {Options}
  {
  }

  lemma LoadSidebarOk(db: Db, s: Session, side: seq<PageLink>)
    requires CacheOk(db, s.cache) && IsOpenList(db.pages, side)
    ensures var (s', links) := LoadSidebar(db, s, side);
            && CacheOk(db, s'.cache) && IsOpenList(db.pages, links)
                 && s'.ctx == s.ctx + SideTriggers(db) + {SidebarInfo}
    ensures SideRecorded(db, s.cache) == SideTriggers(db) + {SidebarInfo}
  {
  }

  /** What surrounds a page is current, and the page comes to depend on the same triggers whichever
      parts were cached. */
  lemma SurroundOk(db: Db, s: Session, side: seq<PageLink>)
    requires CacheOk(db, s.cache) && IsOpenList(db.pages, side)
    ensures var (s', chrome) := Surround(db, s, side);
            CacheOk(db, s'.cache) && ChromeOk(db, chrome, s'.ctx) && s'.ctx == s.ctx + PageTriggers(db)
  {
    LoadInfoOk(db, s);
    var (s1, info) := LoadInfo(db, s);
    if SidebarFrame !in s1.cache {
      LoadSidebarOk(db, s1, side);
      var (s2, links) := LoadSidebar(db, s1, side);
      var ts := SideRecorded(db, s1.cache) + {Options};
      assert ts + {SidebarFrame} == PageTriggers(db);
      StoredOk(db, s2.AddTriggers({Options}), SidebarFrame, SideFrame(links, info.copyright), ts);
    }
  }

  lemma ViewPostOk(st: State, sid: string, comments: seq<CommentView>, side: seq<PageLink>)
    requires Ok(st) && IsSid(sid) && IsCommentList(st.db.comments, Atoi(sid), comments) && IsOpenList(st.db.pages, side)
    ensures Ok(AfterViewPost(st, sid, comments, side))
  {
    var id := Atoi(sid);
    if PostTag(sid) !in st.cache && id in st.db.posts && st.db.posts[id].isOpen {
      SurroundOk(st.db, Session(st.cache, {}), side);
      var p := st.db.posts[id];
      var (s, chrome) := Surround(st.db, Session(st.cache, {}), side);
      PageStoredOk(st.db, s, PostTag(sid),
                   PostPage(PostView(p.title, p.abstract_, p.content, p.publish, comments), chrome));
    }
  }

  lemma ViewPageOk(st: State, sid: string, side: seq<PageLink>)
    requires Ok(st) && IsSid(sid) && IsOpenList(st.db.pages, side)
    ensures Ok(AfterViewPage(st, sid, side))
  {
    var id := Atoi(sid);
    if PageTag(sid) !in st.cache && id in st.db.pages && st.db.pages[id].isOpen {
      SurroundOk(st.db, Session(st.cache, {}), side);
      var (s, chrome) := Surround(st.db, Session(st.cache, {}), side);
      PageStoredOk(st.db, s, PageTag(sid), StaticView(st.db.pages[id].title, st.db.pages[id].content, chrome));
    }
  }

  /** A slice of a ranking is a ranking of rows. */
  ghost predicate Slice(ids: seq<nat>, rows: map<nat, int>) {
    && (forall i :: 0 <= i < |ids| ==> ids[i] in rows)
    && (forall i, j :: 0 <= i < j < |ids| ==>
           ids[i] != ids[j] && (ids[i] in rows && ids[j] in rows ==> rows[ids[i]] >= rows[ids[j]]))
  }

  lemma TakeFrom(ranking: seq<nat>, rows: map<nat, int>, offset: nat, n: nat)
    requires IsRanking(ranking, rows)
    ensures |Take(ranking, offset, n)| <= n && Slice(Take(ranking, offset, n), rows)
  {
  }

  /** Whatever the query, its rows are open posts that satisfy it, the latest first. */
  lemma RowsShown(db: Db, cat: nat, q: string, ids: seq<nat>)
    requires Consistent(db) && Slice(ids, ListedRows(db, cat, q))
    ensures AllOpen(db, ids) && Ranked(db, ids) && AllBelong(db, cat, q, ids)
  {
    IndexIsFaithful(db, cat, q);
    var rows := ListedRows(db, cat, q);
    forall p | p in rows
      ensures p in db.posts && db.posts[p].isOpen && Belongs(db, cat, q, p) && rows[p] == db.posts[p].publish
    {
    }
    forall i | 0 <= i < |ids|
      ensures Belongs(db, cat, q, ids[i]) && db.posts[ids[i]].isOpen
    {
      assert ids[i] in rows;
    }
  }

  ghost predicate AllOpen(db: Db, ids: seq<nat>) {
    forall i :: 0 <= i < |ids| ==> ids[i] in db.posts && db.posts[ids[i]].isOpen
  }

  lemma ListedOk(db: Db, ids: seq<nat>, triggers: set<Tag>)
    requires AllOpen(db, ids) && PostTags(ids) <= triggers
    ensures ItemsOk(db, ListedAll(db, ids), triggers) && ItemIds(ListedAll(db, ids)) == ids
    ensures FeedOk(db, FedAll(db, ids), triggers) && FeedIds(FedAll(db, ids)) == ids
  {
  }

  lemma ViewCommentsOk(st: State, newest: seq<CommentItem>)
    requires Ok(st) && IsNewest(st.db.comments, newest)
    ensures Ok(AfterViewComments(st, newest))
  {
  }

  lemma ViewRssOk(st: State, ranking: seq<nat>)
    requires Ok(st) && IsRanking(ranking, OpenRows(st.db, ""))
    ensures Ok(AfterViewRss(st, ranking))
  {
    if RssPosts !in st.cache {
      var ids := Take(ranking, 0, 10);
      TakeFrom(ranking, OpenRows(st.db, ""), 0, 10);
      RowsShown(st.db, 0, "", ids);
      var s0 := Session(st.cache, {CatTag(Id(0))} + PostTags(ids));
      LoadInfoOk(st.db, s0);
      var (s, info) := LoadInfo(st.db, s0);
      ListedOk(st.db, ids, s.ctx + {RssPosts});
      PageStoredOk(st.db, s, RssPosts, Feed(FedAll(st.db, ids), info));
    }
  }

  lemma ViewRssCategoryOk(st: State, sid: string, ranking: seq<nat>)
    requires Ok(st) && IsSid(sid) && IsRanking(ranking, IndexRows(st.db, Atoi(sid), ""))
    ensures Ok(AfterViewRssCategory(st, sid, ranking))
  {
    if RssCat(sid) !in st.cache && Atoi(sid) in st.db.cats {
      var ids := Take(ranking, 0, 10);
      TakeFrom(ranking, IndexRows(st.db, Atoi(sid), ""), 0, 10);
      RowsShown(st.db, Atoi(sid), "", ids);
      var s0 := Session(st.cache, {CatTag(sid)} + PostTags(ids));
      LoadInfoOk(st.db, s0);
      var (s, info) := LoadInfo(st.db, s0);
      ListedOk(st.db, ids, s.ctx + {RssCat(sid)});
      PageStoredOk(st.db, s, RssCat(sid), Feed(FedAll(st.db, ids), info));
    }
  }

  lemma RecordCountOk(db: Db, s: Session, cat: nat, q: string)
    requires CacheOk(db, s.cache)
    ensures CacheOk(db, RecordCount(db, s, cat, q).0.cache) && s.ctx <= RecordCount(db, s, cat, q).0.ctx
  {
  }

  lemma CategoryNameOk(db: Db, s: Session, cat: nat)
    requires CacheOk(db, s.cache)
    ensures var (s', name) := CategoryName(db, s, cat);
            && CacheOk(db, s'.cache) && (name != "" ==> cat in db.cats && db.cats[cat] == name)
            && s.ctx <= s'.ctx
  {
  }

  lemma SummaryBuiltOk(db: Db, s: Session, cat: nat, page: nat, q: string, ranking: seq<nat>, side: seq<PageLink>)
    requires Consistent(db) && CacheOk(db, s.cache) && CatTag(Id(cat)) in s.ctx && (cat != 0 ==> cat in db.cats)
    requires IsRanking(ranking, ListedRows(db, cat, q)) && IsOpenList(db.pages, side)
    ensures CacheOk(db, SummaryBuilt(db, s, cat, page, q, ranking, side))
  {
    hide Surround, RecordCount, IsRanking, Slice, Ranked, AllBelong, ItemsOk, FeedOk, AllOpen, ChromeOk, ListedRows;
    RecordCountOk(db, s, cat, q);
    var (s1, n) := RecordCount(db, s, cat, q);
    var ids := Take(ranking, page * 10, 10);
    TakeFrom(ranking, ListedRows(db, cat, q), page * 10, 10);
    RowsShown(db, cat, q, ids);
    SurroundOk(db, s1.AddTriggers(PostTags(ids)), side);
    var (s2, chrome) := Surround(db, s1.AddTriggers(PostTags(ids)), side);
    var k := SummaryTag(cat, page, q);
    ListedOk(db, ids, s2.ctx + {k});
    PageStoredOk(db, s2, k, Listing(ListedAll(db, ids), chrome));
  }

  lemma SummaryCategoryOk(db: Db, s: Session, cat: nat, page: nat, q: string, ranking: seq<nat>, side: seq<PageLink>)
    requires Consistent(db) && CacheOk(db, s.cache)
    requires IsRanking(ranking, ListedRows(db, cat, q)) && IsOpenList(db.pages, side)
    ensures CacheOk(db, SummaryCategory(db, s, cat, page, q, ranking, side))
  {
    var s1 := s.AddTriggers({CatTag(Id(cat))});
    if cat == 0 {
      SummaryBuiltOk(db, s1, cat, page, q, ranking, side);
    } else {
      CategoryNameOk(db, s1, cat);
      if CategoryName(db, s1, cat).1 != "" {
        SummaryBuiltOk(db, CategoryName(db, s1, cat).0, cat, page, q, ranking, side);
      }
    }
  }

  lemma ViewSummaryOk(st: State, cat: nat, page: nat, q: string, ranking: seq<nat>, side: seq<PageLink>)
    requires Ok(st) && IsRanking(ranking, ListedRows(st.db, cat, q)) && IsOpenList(st.db.pages, side)
    ensures Ok(AfterViewSummary(st, cat, page, q, ranking, side))
  {
    var s := Session(st.cache, {});
    if cat == 0 {
      SummaryCategoryOk(st.db, s, cat, page, q, ranking, side);
    } else if MaxCatId in st.cache {
      SummaryCategoryOk(st.db, s.Fetched(MaxCatId), cat, page, q, ranking, side);
    } else {
      StoredOk(st.db, s, MaxCatId, Frame(MaxText(st.db.cats)), {AllCats});
      SummaryCategoryOk(st.db, MaxStored(st.db, s), cat, page, q, ranking, side);
    }
  }

  lemma SaveOptionsOk(st: State, info: Info)
    requires Ok(st)
    ensures Ok(AfterShowAdmin(Changed(st, st.db.(info := info), {Options})))
  {
    PagesConsistent(st.db, st.db.(info := info));
    ChangedOk(st, st.db.(info := info), {Options});
    LoadInfoOk(st.db.(info := info), Session(RiseAll(st.cache, {Options}), {}));
  }

  ghost predicate OnlyDropped(before: Cache, after: Cache) {
    forall k :: k in after ==> k in before && after[k] == before[k]
  }

  lemma RiseDrops(c: Cache)
    ensures OnlyDropped(c, c) && forall ts :: OnlyDropped(c, RiseAll(c, ts))
  {
  }

  /** The requests that change posts, comments, categories or static pages. */
  predicate IsEdit(r: Request) {
    || r.SavePost? || r.Postback? || r.SaveComment? || r.SavePage?
    || r.NewCategory? || r.RenameCategory? || r.RemoveCategory?
  }

  /** They store nothing in the cache and leave the texts of the blog alone. */
  lemma EditOnlyDrops(st: State, r: Request)
    requires IsEdit(r)
    ensures OnlyDropped(st.cache, Step(st, r).cache) && Step(st, r).db.info == st.db.info
    ensures r.SavePost? || r.Postback? || r.SaveComment? || r.SavePage? ==> Step(st, r).db.cats == st.db.cats
  {
    RiseDrops(st.cache);
    hide RiseAll, OnlyDropped, EditTriggers, CreateTriggers, EditedPost, EditedRels, NewRels, RelKeys, Adds, Dels,
        CommentsOf, InUse;
    match r
    case SavePost(id, f, now, newId) =>
      assert Step(st, r) == AfterSavePost(st, id, f, now, newId);
    case Postback(id, send, row, cid) =>
      assert Step(st, r) == AfterPostback(st, id, send, row, cid);
    case SaveComment(cid, erase, author, email, url, content) =>
      assert Step(st, r) == AfterSaveComment(st, cid, erase, author, email, url, content);
    case SavePage(id, title, content, remove, changeStatus, newId) =>
      assert Step(st, r) == AfterSavePage(st, id, title, content, remove, changeStatus, newId);
    case _ =>
  }

  lemma ViewKeepsTables(st: State, r: Request)
    requires IsView(r)
    ensures Step(st, r).db == st.db
  {
    hide Surround, LoadInfo, SummaryCategory;
  }

  lemma ConfigureOk(st: State, title: string, description: string, contact: string)
    requires Ok(st)
    ensures Ok(AfterConfigure(st, title, description, contact))
  {
    var db := AfterConfigure(st, title, description, contact).db;
    PagesConsistent(st.db, db);
    ChangedOk(st, db, {});
    RiseOneMore(st.cache, {}, Options);
  }

  // ----- every reachable state

  lemma StepOk(st: State, r: Request)
    requires Ok(st) && Allowed(st, r)
    ensures Ok(Step(st, r))
  {
    match r
    case SavePost(id, f, now, newId) => SavePostOk(st, id, f, now, newId);
    case Postback(id, send, row, cid) => PostbackOk(st, id, send, row, cid);
    case SaveComment(cid, erase, author, email, url, content) =>
      SaveCommentOk(st, cid, erase, author, email, url, content);
    case NewCategory(cat, name) => CategoriesOk(st, cat, name, false);
    case RenameCategory(cat, name) => CategoriesOk(st, cat, name, false);
    case RemoveCategory(cat, cascade) => CategoriesOk(st, cat, "", cascade);
    case SavePage(id, title, content, remove, changeStatus, newId) =>
      SavePageOk(st, id, title, content, remove, changeStatus, newId);
    case ViewPost(sid, comments, side) => ViewPostOk(st, sid, comments, side);
    case ViewPage(sid, side) => ViewPageOk(st, sid, side);
    case ViewSummary(cat, page, q, ranking, side) => ViewSummaryOk(st, cat, page, q, ranking, side);
    case ViewComments(newest) => ViewCommentsOk(st, newest);
    case ViewRss(ranking) => ViewRssOk(st, ranking);
    case ViewRssCategory(sid, ranking) => ViewRssCategoryOk(st, sid, ranking);
    case ShowPage(side) => SurroundOk(st.db, Session(st.cache, {}), side);
    case ShowAdmin => LoadInfoOk(st.db, Session(st.cache, {}));
    case SaveOptions(info) => SaveOptionsOk(st, info);
    case Configure(title, description, contact) => ConfigureOk(st, title, description, contact);
    case ClearCache => LoadInfoOk(st.db, Session(map[], {}));
    case NewSession =>
  }

  /** The state after a sequence of serial requests. */
  function Run(st: State, rs: seq<Request>): State {
    if rs == [] then st else Step(Run(st, rs[..|rs| - 1]), rs[|rs| - 1])
  }

  ghost predicate AllAllowed(st: State, rs: seq<Request>) {
    forall i :: 0 <= i < |rs| ==> Allowed(Run(st, rs[..i]), rs[i])
  }

  /** In every reachable state the tables are consistent and the whole cache agrees with them. */
  lemma {:induction false} RunOk(st: State, rs: seq<Request>)
    requires Ok(st) && AllAllowed(st, rs)
    ensures Ok(Run(st, rs))
    decreases |rs|
  {
    if rs != [] {
      var before, last := rs[..|rs| - 1], rs[|rs| - 1];
      forall i | 0 <= i < |before|
        ensures Allowed(Run(st, before[..i]), before[i])
      {
        assert before[..i] == rs[..i];
      }
      RunOk(st, before);
      assert Allowed(Run(st, rs[..|rs| - 1]), last);
      StepOk(Run(st, before), last);
    }
  }

  /** A new blog starts right, with an empty cache. */
  lemma EmptyOk(db: Db)
    requires Consistent(db)
    ensures Ok(State(db, map[]))
    ensures Consistent(EMPTY)
  {
  }

  /** What this means for a reader of a cached listing: its posts exist, are published, satisfy the
      query, are in the category, come latest first, and every listed column is current. */
  lemma ReachableListing(st: State, rs: seq<Request>, cat: nat, page: nat, q: string)
    requires Ok(st) && AllAllowed(st, rs) && SummaryTag(cat, page, q) in Run(st, rs).cache
    ensures var db, v := Run(st, rs).db, Run(st, rs).cache[SummaryTag(cat, page, q)].value;
            && v.Listing?
            && (cat != 0 ==> cat in db.cats)
            && (forall i :: 0 <= i < |v.items| ==>
                  var item := v.items[i];
                  && item.id in db.posts
                  && var p := db.posts[item.id];
                     && p.isOpen && Matches(p, q) && (cat != 0 ==> (item.id, cat) in db.rels)
                     && item.title == p.title && item.abstract_ == p.abstract_ && (item.hasContent <==> p.content != "")
                     && item.publish == p.publish && item.commentCount == |CommentsOf(db.comments, item.id)|)
            && (forall i, j :: 0 <= i < j < |v.items| ==>
                  v.items[i].id != v.items[j].id && v.items[i].publish >= v.items[j].publish)
  {
    RunOk(st, rs);
    var e := Run(st, rs).cache[SummaryTag(cat, page, q)];
    assert EntryOk(Run(st, rs).db, SummaryTag(cat, page, q), e);
    var ids := ItemIds(e.value.items);
    forall i | 0 <= i < |ids|
      ensures Belongs(Run(st, rs).db, cat, q, ids[i]) && ItemOk(Run(st, rs).db, e.value.items[i])
      ensures CountOk(Run(st, rs).db, ids[i])
    {
    }
  }

  /** The same for a reader of a cached feed. */
  lemma ReachableFeed(st: State, rs: seq<Request>, k: Tag)
    requires Ok(st) && AllAllowed(st, rs) && k in Run(st, rs).cache && (k == RssPosts || k.RssCat?)
    ensures var db, v := Run(st, rs).db, Run(st, rs).cache[k].value;
            && v.Feed?
            && (forall i :: 0 <= i < |v.posts| ==>
                  var item := v.posts[i];
                  && item.id in db.posts
                  && var p := db.posts[item.id];
                     && p.isOpen
                     && item.title == p.title && item.abstract_ == p.abstract_
                          && (item.hasContent <==> p.content != ""))
            && (forall i, j :: 0 <= i < j < |v.posts| ==>
                  v.posts[i].id != v.posts[j].id && db.posts[v.posts[i].id].publish >= db.posts[v.posts[j].id].publish)
            && (k.RssCat? && Canonical(k.sid) ==> forall i :: 0 <= i < |v.posts| ==>
                   Belongs(db, Atoi(k.sid), "", v.posts[i].id))
  {
    RunOk(st, rs);
    var e := Run(st, rs).cache[k];
    assert EntryOk(Run(st, rs).db, k, e);
    var ids := FeedIds(e.value.posts);
    assert forall i :: 0 <= i < |ids| ==> FeedItemOk(Run(st, rs).db, e.value.posts[i]) && ids[i] == e.value.posts[i].id;
  }

  /** The same for a reader of the other cached pages and frames. */
  lemma ReachableFresh(st: State, rs: seq<Request>, k: Tag)
    requires Ok(st) && AllAllowed(st, rs) && k in Run(st, rs).cache
    ensures var db, v := Run(st, rs).db, Run(st, rs).cache[k].value;
            && (k == AllComments ==> v.CommentFeed? && IsNewest(db.comments, v.newest))
            && (k.PostTag? ==> v.PostPage? && IsSid(k.sid) && (Canonical(k.sid) ==> PostFresh(db, Atoi(k.sid), v.view)))
            && (k.PageTag? ==>
                  v.StaticView? && IsSid(k.sid) && Atoi(k.sid) in db.pages
                  && db.pages[Atoi(k.sid)] == StaticPage(v.title, v.content, true))
            && (k.SummaryTag? || k.PostTag? || k.PageTag? ==>
                  && (v.Listing? || v.PostPage? || v.StaticView?)
                  && v.chrome.copyright == db.info.copyright && IsOpenList(db.pages, v.chrome.links))
            && (k == SidebarInfo ==> v.Sidebar? && IsOpenList(db.pages, v.links))
            && (k == SidebarFrame ==> v.SideFrame? && IsOpenList(db.pages, v.links) && v.copyright == db.info.copyright)
            && (k == MaxCatId ==> v.Frame? && MaxOk(db.cats, v.text))
            && (k.CatName? ==> v.Frame? && (v.text != "" ==> k.id in db.cats && db.cats[k.id] == v.text))
  {
    RunOk(st, rs);
    assert EntryOk(Run(st, rs).db, k, Run(st, rs).cache[k]);
  }
}
