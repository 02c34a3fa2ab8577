/** What each request does, row by row: the tables afterwards, the cached objects dropped and the
    pages that are shown and cached. */
module BlogEffects {
  import opened CacheTags
  import opened BlogTables
  import opened BlogCache
  import opened BlogState
  import opened BlogInvariant
  import opened BlogLimits
  import FN = FormatNumber
  import P = Pagination
  import T = Text

  // ----- saving posts

  /** A new post is stored as the form has it, with no comments, and is in exactly the categories
      ticked; the listings of these, and of all posts if it is published, are dropped. */
  lemma CreateEffect(st: State, f: PostForm, now: int, newId: nat)
    requires Consistent(st.db) && newId !in st.db.posts && !f.remove
    ensures var st' := Step(st, SavePost(0, f, now, newId));
            && st'.db == st.db.(posts := st'.db.posts, rels := st'.db.rels)
            && st'.db.posts == st.db.posts[newId := Post(f.title, f.abstract_, f.content, now, f.changeStatus, 0)]
            && (forall r :: r in st'.db.rels <==>
                  r in st.db.rels || (r.0 == newId && r.1 in st.db.cats && r.1 in f.addTo))
            && (forall r :: r in st'.db.rels ==>
                  st'.db.rels[r] == if r.0 == newId then Rel(now, f.changeStatus) else st.db.rels[r])
            && st'.cache == RiseAll(st.cache, (set c | c in st.db.cats && c in f.addTo :: CatTag(Id(c)))
                                              + (if f.changeStatus then {CatTag(Id(0))} else {}))
  {
    var st' := Step(st, SavePost(0, f, now, newId));
    assert (set c | c in st.db.cats && c in f.addTo :: CatTag(Id(c))) == CatTags(f.addTo * st.db.cats.Keys);
    forall r | r in st.db.rels
      ensures r.0 != newId
    {
      assert RelOk(st.db, r);
    }
  }

  /** An edited post has the form's title, abstract and content; its status changes exactly on
      demand, its publish time exactly when it becomes published, its comment count not at all.  It
      enters the categories ticked for adding and leaves those ticked for removal, and all its index
      rows agree with it. */
  lemma EditEffect(st: State, id: nat, f: PostForm, now: int)
    requires Consistent(st.db) && id != 0 && id in st.db.posts && !f.remove
    ensures var p := st.db.posts[id];
            var st' := Step(st, SavePost(id, f, now, 0));
            var isOpen, publish := p.isOpen != f.changeStatus, if f.changeStatus && !p.isOpen then now else p.publish;
            && st'.db == st.db.(posts := st'.db.posts, rels := st'.db.rels)
            && st'.db.posts == st.db.posts[id := Post(f.title, f.abstract_, f.content, publish, isOpen, p.commentCount)]
            && (forall r :: r in st'.db.rels <==>
                  if r.0 != id then r in st.db.rels
                  else if r in st.db.rels then r.1 !in f.delFrom
                  else r.1 in st.db.cats && r.1 in f.addTo)
            && (forall r :: r in st'.db.rels ==>
                  st'.db.rels[r] == if r.0 == id then Rel(publish, isOpen) else st.db.rels[r])
  {
    var db, db' := st.db, Step(st, SavePost(id, f, now, 0)).db;
    AddsAreNew(db, id, f);
    EditPostConsistent(db, id, f, now);
    forall r
      ensures r in db'.rels <==>
              if r.0 != id then r in db.rels
              else if r in db.rels then r.1 !in f.delFrom
              else r.1 in db.cats && r.1 in f.addTo
      ensures r in db'.rels ==>
                db'.rels[r] == if r.0 == id then Rel(db'.posts[id].publish, db'.posts[id].isOpen) else db.rels[r]
    {
      assert RelOk(db, r) && RelOk(db', r);
      InCategory(db, id, r);
    }
  }

  lemma InCategory(db: Db, id: nat, r: (nat, nat))
    requires Consistent(db)
    ensures r.0 == id ==> (r in db.rels <==> r.1 in CatsOf(db, id))
  {
    assert RelOk(db, r);
    if r.0 == id && r.1 in CatsOf(db, id) {
      assert (id, r.1) in db.rels && r == (id, r.1);
    }
  }

  /** The objects dropped are those that depend on the post, on a category it enters, or, when its
      status changes, on the list of all posts or a category it was in. */
  lemma EditDrops(st: State, id: nat, f: PostForm, now: int)
    requires Consistent(st.db) && id != 0 && id in st.db.posts && !f.remove
    ensures Step(st, SavePost(id, f, now, 0)).cache
            == RiseAll(st.cache,
                       {PostTag(Id(id))}
                       + (set c | c in st.db.cats && c in f.addTo && (id, c) !in st.db.rels :: CatTag(Id(c)))
                       + (if f.changeStatus then {CatTag(Id(0))} else {})
                       + (if !f.changeStatus then {}
                          else set c | c in st.db.cats && (id, c) in st.db.rels :: CatTag(Id(c))))
  {
    var db := st.db;
    forall c: nat
      ensures c in Adds(db, id, f) <==> c in db.cats && c in f.addTo && (id, c) !in db.rels
      ensures c in CatsOf(db, id) <==> c in db.cats && (id, c) in db.rels
    {
      InCategory(db, id, (id, c));
      assert RelOk(db, (id, c));
    }
    assert CatTags(Adds(db, id, f)) == set c | c in db.cats && c in f.addTo && (id, c) !in db.rels :: CatTag(Id(c));
    assert CatTags(CatsOf(db, id)) == set c | c in db.cats && (id, c) in db.rels :: CatTag(Id(c));
    assert EditTriggers(db, id, f)
           == {PostTag(Id(id))} + CatTags(Adds(db, id, f)) + (if f.changeStatus then {CatTag(Id(0))} else {})
              + (if f.changeStatus then CatTags(CatsOf(db, id)) else {});
  }

  /** A removed post goes with its comments and index rows, and nothing else does. */
  lemma RemoveEffect(st: State, id: nat, f: PostForm, now: int)
    requires id != 0 && id in st.db.posts && f.remove
    ensures var st' := Step(st, SavePost(id, f, now, 0));
            && st'.db == st.db.(posts := st.db.posts - {id}, comments := st'.db.comments, rels := st'.db.rels)
            && (forall c :: c in st'.db.comments <==> c in st.db.comments && st.db.comments[c].postId != id)
            && (forall c :: c in st'.db.comments ==> st'.db.comments[c] == st.db.comments[c])
            && (forall r :: r in st'.db.rels <==> r in st.db.rels && r.0 != id)
            && (forall r :: r in st'.db.rels ==> st'.db.rels[r] == st.db.rels[r])
            && st'.cache == RiseAll(st.cache, {AllComments, PostTag(Id(id))})
  {
  }

  /** Removing a post that was never saved, and saving one that is gone, do nothing. */
  lemma NothingSaved(st: State, id: nat, f: PostForm, now: int, newId: nat)
    requires if id == 0 then f.remove else id !in st.db.posts
    ensures Step(st, SavePost(id, f, now, newId)) == st
  {
  }

  // ----- comments

  /** A comment sent to an open post is stored with all its fields and counted; in every other case
      nothing happens. */
  lemma PostbackEffect(st: State, id: nat, send: bool, row: Comment, cid: nat)
    requires Consistent(st.db) && cid !in st.db.comments
    ensures var st' := Step(st, Postback(id, send, row, cid));
            if send && id in st.db.posts && st.db.posts[id].isOpen then
              var p := st.db.posts[id];
              var c := Comment(id, row.author, row.email, row.url, row.time, row.content);
              && st'.db == st.db.(comments := st.db.comments[cid := c],
                                  posts := st.db.posts[id := p.(commentCount := p.commentCount + 1)])
              && st'.cache == RiseAll(st.cache, {PostTag(Id(id)), AllComments})
            else st' == st
  {
    if send && id in st.db.posts && st.db.posts[id].isOpen {
      assert CountOk(st.db, id);
      var own := row.(postId := id);
      assert CommentsOf(st.db.comments[cid := own], id) == CommentsOf(st.db.comments, id) + {cid};
    }
  }

  /** An erased comment is no longer stored nor counted. */
  lemma EraseEffect(st: State, cid: nat, author: string, email: string, url: string, content: string)
    requires Consistent(st.db) && cid in st.db.comments
    ensures var id := st.db.comments[cid].postId;
            var st' := Step(st, SaveComment(cid, true, author, email, url, content));
            && id in st.db.posts && st.db.posts[id].commentCount > 0
            && var p := st.db.posts[id];
               && st'.db == st.db.(comments := st.db.comments - {cid},
                                   posts := st.db.posts[id := p.(commentCount := p.commentCount - 1)])
               && st'.cache == RiseAll(st.cache, {PostTag(Id(id)), AllComments})
  {
    var id := st.db.comments[cid].postId;
    assert CountOk(st.db, id) && cid in CommentsOf(st.db.comments, id);
    assert CommentsOf(st.db.comments - {cid}, id) == CommentsOf(st.db.comments, id) - {cid};
  }

  /** An edited comment keeps its post and time; no other row changes. */
  lemma EditCommentEffect(st: State, cid: nat, author: string, email: string, url: string, content: string)
    ensures var st' := Step(st, SaveComment(cid, false, author, email, url, content));
            if cid in st.db.comments then
              var c := st.db.comments[cid];
              var c' := Comment(c.postId, author, email, url, c.time, content);
              && st'.db == st.db.(comments := st.db.comments[cid := c'])
              && st'.cache == RiseAll(st.cache, {PostTag(Id(c.postId)), AllComments})
            else st' == st
    ensures cid !in st.db.comments ==> Step(st, SaveComment(cid, true, author, email, url, content)) == st
  {
  }

  // ----- categories and static pages

  lemma NameEffects(st: State, cat: nat, name: string)
    ensures Step(st, NewCategory(cat, name))
            == State(st.db.(cats := st.db.cats[cat := name]), RiseAll(st.cache, {AllCats}))
    ensures Step(st, RenameCategory(cat, name))
            == State(if cat in st.db.cats then st.db.(cats := st.db.cats[cat := name]) else st.db,
                     RiseAll(st.cache, {AllCats, CatTag(Id(cat))}))
  {
  }

  /** A category in use goes, with its index rows, only on a cascade; an unused one always. */
  lemma RemoveCategoryEffect(st: State, cat: nat, cascade: bool)
    ensures var st' := Step(st, RemoveCategory(cat, cascade));
            if (exists p :: (p, cat) in st.db.rels) && !cascade then st' == st
            else
              && st'.db == st.db.(cats := st.db.cats - {cat}, rels := st'.db.rels)
              && (forall r :: r in st'.db.rels <==> r in st.db.rels && r.1 != cat)
              && (forall r :: r in st'.db.rels ==> st'.db.rels[r] == st.db.rels[r])
              && st'.cache == RiseAll(st.cache, {AllCats, CatTag(Id(cat))})
  {
    if InUse(st.db, cat) {
      var r :| r in st.db.rels && r.1 == cat;
      assert (r.0, cat) in st.db.rels;
    }
  }

  /** A page is stored as the form has it and is open exactly as demanded.  The page and the list of
      pages are dropped unless the page is closed before and after. */
  lemma SavePageEffect(st: State, id: nat, title: string, content: string, remove: bool, changeStatus: bool, newId: nat)
    ensures var st' := Step(st, SavePage(id, title, content, remove, changeStatus, newId));
            && (id == 0 && !remove ==>
                  && st'.db == st.db.(pages := st.db.pages[newId := StaticPage(title, content, changeStatus)])
                  && st'.cache == RiseAll(st.cache, if changeStatus then {AllPages} else {}))
            && (id != 0 && id in st.db.pages ==>
                  var wasOpen := st.db.pages[id].isOpen;
                  var isOpen := wasOpen != changeStatus;
                  && st'.db == st.db.(pages := if remove then st.db.pages - {id}
                                               else st.db.pages[id := StaticPage(title, content, isOpen)])
                  && st'.cache == if !wasOpen && (remove || !changeStatus) then st.cache
                                  else RiseAll(st.cache, {PageTag(Id(id)), AllPages}))
            && ((if id == 0 then remove else id !in st.db.pages) ==> st' == st)
  {
    RiseOneMore(st.cache, {}, AllPages);
  }

  // ----- the texts of the blog and the cache as a whole

  lemma TextEffects(st: State, info: Info)
    ensures Step(st, SaveOptions(info)).db == st.db.(info := info)
    ensures Step(st, Configure(info.title, info.description, info.contact))
            == st.(db := st.db.(info := Info(info.title, info.description, info.contact, st.db.info.copyright)))
  {
    hide LoadInfo, RiseAll;
  }

  lemma ClearEffects(st: State)
    ensures Step(st, NewSession) == State(st.db, map[])
    ensures Step(st, ClearCache) == State(st.db, map[Options := Entry(Settings(st.db.info), {Options})])
  {
    assert {} + {Options} == {Options};
  }

  /** Saving the options drops what depends on them, and the page shown then caches the new ones. */
  lemma SaveOptionsEffect(st: State, info: Info)
    requires Ok(st)
    ensures Step(st, SaveOptions(info)).cache
            == RiseAll(st.cache, {Options})[Options := Entry(Settings(info), {Options})]
  {
    assert Options in st.cache ==> EntryOk(st.db, Options, st.cache[Options]);
    assert {} + {Options} == {Options};
    assert Options !in RiseAll(st.cache, {Options});
    hide Ok, EntryOk, RiseAll;
  }

  /** The upgrade changes nothing but the status in index rows of existing posts. */
  lemma UpgradeEffect(db: Db)
    ensures var db' := Upgrade23(db);
            && db' == db.(rels := db'.rels) && db'.rels.Keys == db.rels.Keys
            && forall r :: r in db.rels ==>
                 db'.rels[r] == Rel(db.rels[r].publish,
                                    if r.0 in db.posts then db.posts[r.0].isOpen else db.rels[r].isOpen)
  {
  }

  // ----- pages shown and cached

  /** Nothing cached is dropped or changed, and only objects under the keys `ks` are new. */
  ghost predicate Grows(before: Cache, after: Cache, ks: set<Tag>) {
    && (forall k :: k in before ==> k in after && after[k] == before[k])
    && (forall k :: k in after ==> k in before || k in ks)
  }

  /** A cached page of a post or static page depends on its own key, the lists of pages and
      categories, every category, the options and the sidebar, and on nothing else. */
  lemma PageDependsOn(st: State, k: Tag)
    requires Ok(st) && k in st.cache && (k.PostTag? || k.PageTag?)
    ensures st.cache[k].triggers
            == {k, AllPages, AllCats, GeneralInfo, SidebarInfo, SidebarFrame, Options}
               + (set c | c in st.db.cats :: CatTag(Id(c)))
  {
    assert EntryOk(st.db, k, st.cache[k]);
  }

  lemma LoadInfoGrows(db: Db, s: Session)
    ensures Grows(s.cache, LoadInfo(db, s).0.cache, {Options})
  {
  }

  lemma SurroundGrows(db: Db, s: Session, side: seq<PageLink>)
    ensures Grows(s.cache, Surround(db, s, side).0.cache, {Options, SidebarInfo, SidebarFrame})
  {
    LoadInfoGrows(db, s);
    hide LoadInfo;
  }

  /** An open post is shown as its row and comments are, and cached unless it is already; a closed or
      missing one is refused. */
  lemma ViewPostEffect(st: State, sid: string, comments: seq<CommentView>, side: seq<PageLink>)
    requires IsSid(sid)
    ensures var st' := Step(st, ViewPost(sid, comments, side));
            var id := Atoi(sid);
            && st'.db == st.db
            && Grows(st.cache, st'.cache, {PostTag(sid), Options, SidebarInfo, SidebarFrame})
            && (PostTag(sid) in st.cache || !(id in st.db.posts && st.db.posts[id].isOpen) ==> st' == st)
            && (PostTag(sid) !in st.cache && id in st.db.posts && st.db.posts[id].isOpen ==>
                  && PostTag(sid) in st'.cache && st'.cache[PostTag(sid)].value.PostPage?
                  && st'.cache[PostTag(sid)].value.view
                     == PostView(st.db.posts[id].title, st.db.posts[id].abstract_, st.db.posts[id].content,
                                 st.db.posts[id].publish, comments))
  {
    SurroundGrows(st.db, Session(st.cache, {}), side);
    hide Surround;
  }

  lemma ViewPageEffect(st: State, sid: string, side: seq<PageLink>)
    requires IsSid(sid)
    ensures var st' := Step(st, ViewPage(sid, side));
            var id := Atoi(sid);
            && st'.db == st.db
            && Grows(st.cache, st'.cache, {PageTag(sid), Options, SidebarInfo, SidebarFrame})
            && (PageTag(sid) in st.cache || !(id in st.db.pages && st.db.pages[id].isOpen) ==> st' == st)
            && (PageTag(sid) !in st.cache && id in st.db.pages && st.db.pages[id].isOpen ==>
                  && PageTag(sid) in st'.cache && st'.cache[PageTag(sid)].value.StaticView?
                  && st'.cache[PageTag(sid)].value.title == st.db.pages[id].title
                  && st'.cache[PageTag(sid)].value.content == st.db.pages[id].content)
  {
    SurroundGrows(st.db, Session(st.cache, {}), side);
    hide Surround;
  }

  lemma ViewCommentsEffect(st: State, newest: seq<CommentItem>)
    ensures var st' := Step(st, ViewComments(newest));
            && st'.db == st.db && Grows(st.cache, st'.cache, {AllComments, Options})
            && AllComments in st'.cache
            && (AllComments !in st.cache ==>
                  st'.cache[AllComments].value.CommentFeed? && st'.cache[AllComments].value.newest == newest)
  {
    LoadInfoGrows(st.db, Session(st.cache, {}));
    hide LoadInfo;
  }

  /** Rows `offset`, `offset` + 1, ... of the ranking, at most ten. */
  ghost predicate ShowsFrom(ids: seq<nat>, ranking: seq<nat>, offset: nat) {
    && |ids| == (if |ranking| <= offset then 0 else if |ranking| - offset < 10 then |ranking| - offset else 10)
    && forall i :: 0 <= i < |ids| ==> ids[i] == ranking[offset + i]
  }

  lemma TakeShows(ranking: seq<nat>, offset: nat)
    ensures ShowsFrom(Take(ranking, offset, 10), ranking, offset)
  {
  }

  lemma ViewRssEffect(st: State, ranking: seq<nat>)
    ensures var st' := Step(st, ViewRss(ranking));
            && st'.db == st.db && Grows(st.cache, st'.cache, {RssPosts, Options}) && RssPosts in st'.cache
            && (RssPosts !in st.cache ==>
                  st'.cache[RssPosts].value.Feed? && ShowsFrom(FeedIds(st'.cache[RssPosts].value.posts), ranking, 0))
  {
    var ids := Take(ranking, 0, 10);
    LoadInfoGrows(st.db, Session(st.cache, {CatTag(Id(0))} + PostTags(ids)));
    TakeShows(ranking, 0);
    FedIds(st.db, ids);
    hide LoadInfo, Take;
  }

  lemma FedIds(db: Db, ids: seq<nat>)
    ensures FeedIds(FedAll(db, ids)) == ids && ItemIds(ListedAll(db, ids)) == ids
  {
  }

  lemma ViewRssCategoryEffect(st: State, sid: string, ranking: seq<nat>)
    requires IsSid(sid)
    ensures var st' := Step(st, ViewRssCategory(sid, ranking));
            && st'.db == st.db && Grows(st.cache, st'.cache, {RssCat(sid), Options})
            && (Atoi(sid) !in st.db.cats || RssCat(sid) in st.cache ==> st' == st)
            && (Atoi(sid) in st.db.cats && RssCat(sid) !in st.cache ==>
                  && RssCat(sid) in st'.cache && st'.cache[RssCat(sid)].value.Feed?
                  && ShowsFrom(FeedIds(st'.cache[RssCat(sid)].value.posts), ranking, 0))
  {
    var ids := Take(ranking, 0, 10);
    LoadInfoGrows(st.db, Session(st.cache, {CatTag(sid)} + PostTags(ids)));
    TakeShows(ranking, 0);
    FedIds(st.db, ids);
    hide LoadInfo, Take;
  }

  // ----- listings

  /** The rows of a listing are exactly the published posts that contain the query, in the category
      if there is one, the latest first. */
  lemma RankingIs(db: Db, cat: nat, q: string, ranking: seq<nat>)
    requires Consistent(db) && IsRanking(ranking, ListedRows(db, cat, q))
    ensures forall p :: p in ranking <==>
              && p in db.posts && db.posts[p].isOpen && (cat != 0 ==> (p, cat) in db.rels)
              && (q == "" || T.Contains(db.posts[p].title, q) || T.Contains(db.posts[p].abstract_, q)
                  || T.Contains(db.posts[p].content, q))
    ensures forall i, j :: 0 <= i < j < |ranking| ==>
              && ranking[i] != ranking[j] && ranking[i] in db.posts && ranking[j] in db.posts
              && db.posts[ranking[i]].publish >= db.posts[ranking[j]].publish
  {
    IndexIsFaithful(db, cat, q);
    forall p | p in db.posts && q != ""
      ensures Matches(db.posts[p], q) <==>
              T.Contains(db.posts[p].title, q) || T.Contains(db.posts[p].abstract_, q)
                  || T.Contains(db.posts[p].content, q)
    {
      MatchesContains(db.posts[p], q);
    }
    var rows := ListedRows(db, cat, q);
    assert forall p :: p in rows <==>
      p in db.posts && db.posts[p].isOpen && (cat != 0 ==> (p, cat) in db.rels) && Matches(db.posts[p], q);
    assert forall p :: p in rows ==> rows[p] == db.posts[p].publish;
    hide ListedRows, Matches;
    assert forall i :: 0 <= i < |ranking| ==> ranking[i] in ranking && ranking[i] in rows;
  }

  lemma RecordCountGrows(db: Db, s: Session, cat: nat, q: string)
    ensures Grows(s.cache, RecordCount(db, s, cat, q).0.cache, {CatCount(cat, Pattern(q))})
  {
  }

  lemma GrowsMore(a: Cache, b: Cache, c: Cache, ks: set<Tag>, ls: set<Tag>)
    requires Grows(a, b, ks) && Grows(b, c, ls)
    ensures Grows(a, c, ks + ls)
  {
  }

  lemma GrowsWider(a: Cache, b: Cache, ks: set<Tag>, ls: set<Tag>)
    requires Grows(a, b, ks) && ks <= ls
    ensures Grows(a, b, ls)
  {
  }

  lemma PageStoredGrows(s: Session, k: Tag, v: Value)
    requires k !in s.cache
    ensures Grows(s.cache, s.PageStored(k, v), {k})
  {
  }

  function ListingKeys(cat: nat, page: nat, q: string): set<Tag> {
    {SummaryTag(cat, page, q), CatCount(cat, Pattern(q)), CatName(cat), MaxCatId, Options, SidebarInfo, SidebarFrame}
  }

  lemma BuiltGrows(db: Db, s: Session, cat: nat, page: nat, q: string, ranking: seq<nat>, side: seq<PageLink>)
    requires SummaryTag(cat, page, q) !in s.cache
    ensures Grows(s.cache, SummaryBuilt(db, s, cat, page, q, ranking, side), ListingKeys(cat, page, q))
  {
    RecordCountGrows(db, s, cat, q);
    hide RecordCount, Surround, ListedAll, Take, Pattern;
    var (s1, n) := RecordCount(db, s, cat, q);
    var ids := Take(ranking, page * 10, 10);
    var s2 := s1.AddTriggers(PostTags(ids));
    SurroundGrows(db, s2, side);
    var (s3, chrome) := Surround(db, s2, side);
    var k, v := SummaryTag(cat, page, q), Listing(ListedAll(db, ids), chrome);
    PageStoredGrows(s3, k, v);
    var ks, ls := {CatCount(cat, Pattern(q))}, {Options, SidebarInfo, SidebarFrame};
    hide Grows;
    GrowsMore(s.cache, s1.cache, s3.cache, ks, ls);
    GrowsMore(s.cache, s3.cache, s3.PageStored(k, v), ks + ls, {k});
    GrowsWider(s.cache, s3.PageStored(k, v), ks + ls + {k}, ListingKeys(cat, page, q));
    GrowsWider(s.cache, s1.cache, ks, ListingKeys(cat, page, q));
  }

  lemma NameGrows(db: Db, s: Session, cat: nat)
    ensures Grows(s.cache, CategoryName(db, s, cat).0.cache, {CatName(cat)})
  {
  }

  lemma NoGrowth(c: Cache, ks: set<Tag>)
    ensures Grows(c, c, ks)
  {
  }

  lemma CategoryGrows(db: Db, s: Session, cat: nat, page: nat, q: string, ranking: seq<nat>, side: seq<PageLink>)
    ensures Grows(s.cache, SummaryCategory(db, s, cat, page, q, ranking, side), ListingKeys(cat, page, q))
    ensures SummaryTag(cat, page, q) in s.cache ==> SummaryCategory(db, s, cat, page, q, ranking, side) == s.cache
  {
    var s1 := s.AddTriggers({CatTag(Id(cat))});
    NameGrows(db, s1, cat);
    NoGrowth(s.cache, ListingKeys(cat, page, q));
    var s2 := if cat == 0 then s1 else CategoryName(db, s1, cat).0;
    if SummaryTag(cat, page, q) !in s.cache {
      assert SummaryTag(cat, page, q) !in s2.cache;
      BuiltGrows(db, s2, cat, page, q, ranking, side);
      GrowsWider(s.cache, s2.cache, {CatName(cat)}, ListingKeys(cat, page, q));
      hide SummaryBuilt, CategoryName, Grows, ListingKeys;
      GrowsMore(s.cache, s2.cache, SummaryBuilt(db, s2, cat, page, q, ranking, side), ListingKeys(cat, page, q),
                ListingKeys(cat, page, q));
      assert ListingKeys(cat, page, q) + ListingKeys(cat, page, q) == ListingKeys(cat, page, q);
    }
  }

  lemma BuiltShows(db: Db, s: Session, cat: nat, page: nat, q: string, ranking: seq<nat>, side: seq<PageLink>)
    requires BuiltReply(db, s, cat, page, q) == Fresh
    ensures var c, k := SummaryBuilt(db, s, cat, page, q, ranking, side), SummaryTag(cat, page, q);
            && k in c && c[k].value.Listing? && ShowsFrom(ItemIds(c[k].value.items), ranking, page * 10)
  {
    var ids := Take(ranking, page * 10, 10);
    TakeShows(ranking, page * 10);
    FedIds(db, ids);
    hide Surround, RecordCount, Take, ShowsFrom;
  }

  /** When a page of a listing is built, it is cached and shows rows 10 * page, 10 * page + 1, ... of
      the ranking, at most ten. */
  lemma FreshShows(st: State, cat: nat, page: nat, q: string, ranking: seq<nat>, side: seq<PageLink>)
    requires SummaryReply(st, cat, page, q) == Fresh
    ensures var st', k := Step(st, ViewSummary(cat, page, q, ranking, side)), SummaryTag(cat, page, q);
            && k in st'.cache && st'.cache[k].value.Listing?
            && var items := st'.cache[k].value.items;
               && |items| == (if |ranking| <= page * 10 then 0
                              else if |ranking| - page * 10 < 10 then |ranking| - page * 10 else 10)
               && forall i :: 0 <= i < |items| ==> items[i].id == ranking[page * 10 + i]
  {
    hide SummaryBuilt, BuiltReply, RecordCount;
    var s := if cat == 0 then Session(st.cache, {})
             else if MaxCatId in st.cache then Session(st.cache, {}).Fetched(MaxCatId)
             else MaxStored(st.db, Session(st.cache, {}));
    var s1 := s.AddTriggers({CatTag(Id(cat))});
    var s2 := if cat == 0 then s1 else CategoryName(st.db, s1, cat).0;
    BuiltShows(st.db, s2, cat, page, q, ranking, side);
  }

  /** A request for a listing changes no table, drops and changes nothing cached, and adds at most the
      page itself, its count, name and surroundings and the largest category id. */
  lemma ViewSummaryGrows(st: State, cat: nat, page: nat, q: string, ranking: seq<nat>, side: seq<PageLink>)
    ensures var st' := Step(st, ViewSummary(cat, page, q, ranking, side));
            st'.db == st.db && Grows(st.cache, st'.cache, ListingKeys(cat, page, q))
  {
    var s := Session(st.cache, {});
    var m := MaxStored(st.db, s);
    var ks := ListingKeys(cat, page, q);
    NoGrowth(st.cache, ks);
    CategoryGrows(st.db, s, cat, page, q, ranking, side);
    if MaxCatId in st.cache {
      CategoryGrows(st.db, s.Fetched(MaxCatId), cat, page, q, ranking, side);
    } else {
      CategoryGrows(st.db, m, cat, page, q, ranking, side);
      assert Grows(st.cache, m.cache, ks);
      GrowsMore(st.cache, m.cache, SummaryCategory(st.db, m, cat, page, q, ranking, side), ks, ks);
      assert ks + ks == ks;
    }
    hide SummaryCategory, Grows, ListingKeys, MaxText;
  }

  /** The session in which a listing is looked up, once the category is not beyond the largest. */
  function Accepted(st: State, cat: nat): Session {
    if cat == 0 then Session(st.cache, {})
    else if MaxCatId in st.cache then Session(st.cache, {}).Fetched(MaxCatId)
    else MaxStored(st.db, Session(st.cache, {}))
  }

  lemma AcceptedWhen(st: State, cat: nat, page: nat, q: string)
    requires Ok(st)
    ensures cat == 0 || cat in st.db.cats ==>
              SummaryReply(st, cat, page, q) == CategoryReply(st.db, Accepted(st, cat), cat, page, q)
    ensures SummaryReply(st, cat, page, q) == Refused
            || SummaryReply(st, cat, page, q) == CategoryReply(st.db, Accepted(st, cat), cat, page, q)
  {
    if cat != 0 && MaxCatId in st.cache && cat in st.db.cats {
      assert EntryOk(st.db, MaxCatId, st.cache[MaxCatId]);
      var m :| m in st.db.cats && st.cache[MaxCatId].value.text == Id(m) && forall c :: c in st.db.cats ==> c <= m;
      FN.DigitsCanonical(m);
    }
    hide CategoryReply, Ok, Consistent, CacheOk;
  }

  /** What the lookup finds in the cache before it and after the largest id has been noted. */
  lemma AcceptedKeeps(st: State, cat: nat, k: Tag)
    requires k != MaxCatId
    ensures var c := Accepted(st, cat).cache; (k in c <==> k in st.cache) && (k in c ==> c[k] == st.cache[k])
  {
  }

  lemma NameIs(st: State, cat: nat)
    requires Ok(st) && NamesRight(st)
    ensures CategoryName(st.db, Accepted(st, cat).AddTriggers({CatTag(Id(cat))}), cat).1
            == if cat in st.db.cats then st.db.cats[cat] else ""
  {
    AcceptedKeeps(st, cat, CatName(cat));
    if CatName(cat) in st.cache {
      assert NameRight(st, cat);
    }
    hide Ok, Accepted, Consistent;
  }

  /** Without cached mistakes a listing is refused exactly when its category does not exist. */
  lemma RefusedWhen(st: State, cat: nat, page: nat, q: string)
    requires Ok(st) && NamesRight(st) && forall c :: c in st.db.cats ==> st.db.cats[c] != ""
    ensures SummaryReply(st, cat, page, q) == Refused <==> cat != 0 && cat !in st.db.cats
  {
    AcceptedWhen(st, cat, page, q);
    AcceptedKeeps(st, cat, SummaryTag(cat, page, q));
    NameIs(st, cat);
    if SummaryTag(cat, page, q) in st.cache {
      assert EntryOk(st.db, SummaryTag(cat, page, q), st.cache[SummaryTag(cat, page, q)]);
    }
    hide SummaryReply, Accepted, Ok, CategoryName, RecordCount;
  }

  lemma {:induction false} DistinctCount(ids: seq<nat>, s: set<nat>)
    requires forall i, j :: 0 <= i < j < |ids| ==> ids[i] != ids[j]
    requires forall p :: p in ids <==> p in s
    ensures |ids| == |s|
    decreases |ids|
  {
    if ids == [] {
      assert s == {};
    } else {
      var last, rest := ids[|ids| - 1], ids[..|ids| - 1];
      assert ids == rest + [last];
      assert forall p :: p in rest <==> p in s - {last};
      DistinctCount(rest, s - {last});
    }
  }

  lemma ClampIs(n: nat, page: nat)
    ensures P.Calc(P.State(n, 10, page, 1)).current
            == if n == 0 then 0 else if page * 10 < n then page else (n - 1) / 10
  {
    if n > 0 {
      P.CeilCounts(n, 10);
    }
  }

  lemma BuiltIs(db: Db, s: Session, cat: nat, page: nat, q: string, ranking: seq<nat>)
    requires IsRanking(ranking, ListedRows(db, cat, q)) && CatCount(cat, Pattern(q)) !in s.cache
    ensures BuiltReply(db, s, cat, page, q)
            == if page == 0 || page * 10 < |ranking| then Fresh
               else Redirect(if ranking == [] then 0 else (|ranking| - 1) / 10)
  {
    DistinctCount(ranking, ListedRows(db, cat, q).Keys);
    hide IsRanking, ListedRows, P.Calc;
    ClampIs(|ranking|, page);
  }

  /** A page not cached yet is built exactly when it exists, judged by the number of rows unless a
      number is cached; else the visitor is sent to the nearest page that does. */
  lemma FreshWhen(st: State, cat: nat, page: nat, q: string, ranking: seq<nat>)
    requires Ok(st) && NamesRight(st) && forall c :: c in st.db.cats ==> st.db.cats[c] != ""
    requires IsRanking(ranking, ListedRows(st.db, cat, q)) && (cat != 0 ==> cat in st.db.cats)
    requires SummaryTag(cat, page, q) !in st.cache && CatCount(cat, Pattern(q)) !in st.cache
    ensures SummaryReply(st, cat, page, q)
            == if page == 0 || page * 10 < |ranking| then Fresh
               else Redirect(if ranking == [] then 0 else (|ranking| - 1) / 10)
  {
    AcceptedWhen(st, cat, page, q);
    AcceptedKeeps(st, cat, SummaryTag(cat, page, q));
    AcceptedKeeps(st, cat, CatCount(cat, Pattern(q)));
    NameIs(st, cat);
    hide SummaryReply, Accepted, Ok, ListedRows, NamesRight, IsRanking, BuiltReply, Pattern, CategoryName;
    var s1 := Accepted(st, cat).AddTriggers({CatTag(Id(cat))});
    NameGrows(st.db, s1, cat);
    BuiltIs(st.db, if cat == 0 then s1 else CategoryName(st.db, s1, cat).0, cat, page, q, ranking);
  }

  /** The posts a page of a listing shows once it has been built. */
  ghost function ShownIds(st: State, cat: nat, page: nat, q: string, ranking: seq<nat>, side: seq<PageLink>): seq<nat> {
    var c := Step(st, ViewSummary(cat, page, q, ranking, side)).cache;
    var k := SummaryTag(cat, page, q);
    if k in c && c[k].value.Listing? then ItemIds(c[k].value.items) else []
  }

  /** The posts of the first pages, one page after the other. */
  ghost function ShownFirst(st: State, cat: nat, q: string, ranking: seq<nat>, side: seq<PageLink>, pages: nat)
    : seq<nat>
  {
    if pages == 0 then []
    else ShownFirst(st, cat, q, ranking, side, pages - 1) + ShownIds(st, cat, pages - 1, q, ranking, side)
  }

  lemma PageIsSlice(st: State, cat: nat, page: nat, q: string, ranking: seq<nat>, side: seq<PageLink>)
    requires SummaryReply(st, cat, page, q) == Fresh && page * 10 <= |ranking|
    ensures ShownIds(st, cat, page, q, ranking, side) == P.Slice(ranking, page, 10)
  {
    hide Step, SummaryReply;
    FreshShows(st, cat, page, q, ranking, side);
  }

  lemma {:induction false} FirstPagesShow(st: State, cat: nat, q: string, ranking: seq<nat>, side: seq<PageLink>,
                                          pages: nat)
    requires forall page: nat :: page < pages ==> SummaryReply(st, cat, page, q) == Fresh
    requires pages > 0 ==> (pages - 1) * 10 <= |ranking|
    ensures ShownFirst(st, cat, q, ranking, side, pages) == P.Concat(ranking, 10, pages)
  {
    hide ShownIds, SummaryReply;
    if pages > 0 {
      FirstPagesShow(st, cat, q, ranking, side, pages - 1);
      PageIsSlice(st, cat, pages - 1, q, ranking, side);
    }
  }

  lemma PageCountIs(n: nat)
    ensures P.Calc(P.State(n, 10, 0, 1)).total == if n == 0 then 1 else (n + 9) / 10
  {
    if n > 0 {
      P.CeilCounts(n, 10);
    }
  }

  /** On an unchanged blog without cached pages and counts of the listing, its pages together show
      every row of the ranking once, in order. */
  lemma PagesShowAll(st: State, cat: nat, q: string, ranking: seq<nat>, side: seq<PageLink>)
    requires Ok(st) && NamesRight(st) && forall c :: c in st.db.cats ==> st.db.cats[c] != ""
    requires IsRanking(ranking, ListedRows(st.db, cat, q)) && (cat != 0 ==> cat in st.db.cats)
    requires CatCount(cat, Pattern(q)) !in st.cache && forall page :: SummaryTag(cat, page, q) !in st.cache
    ensures var pages := if ranking == [] then 1 else (|ranking| + 9) / 10;
            ShownFirst(st, cat, q, ranking, side, pages) == ranking
  {
    hide Ok, NamesRight, IsRanking, ListedRows, SummaryReply, ShownFirst, P.Concat, P.Calc;
    var pages := if ranking == [] then 1 else (|ranking| + 9) / 10;
    forall page: nat | page < pages
      ensures SummaryReply(st, cat, page, q) == Fresh
    {
      FreshWhen(st, cat, page, q, ranking);
    }
    FirstPagesShow(st, cat, q, ranking, side, pages);
    PageCountIs(|ranking|);
    P.PagesPartition(ranking, 10);
  }

  // ----- what the rows of pages and feeds carry

  lemma CommentFields(comments: map<nat, Comment>, post: nat, rows: seq<CommentView>, newest: seq<CommentItem>, i: nat)
    ensures IsCommentList(comments, post, rows) && i < |rows| ==>
              && rows[i].id in comments && comments[rows[i].id].postId == post
              && var c := comments[rows[i].id];
                 (rows[i].author, rows[i].url, rows[i].time, rows[i].content) == (c.author, c.url, c.time, c.content)
    ensures IsNewest(comments, newest) && i < |newest| ==>
              && newest[i].id in comments
              && var c := comments[newest[i].id];
                 (newest[i].postId, newest[i].author, newest[i].content) == (c.postId, c.author, c.content)
  {
    if IsCommentList(comments, post, rows) && i < |rows| {
      assert CommentRow(comments, post, rows[i]);
    }
  }
}
