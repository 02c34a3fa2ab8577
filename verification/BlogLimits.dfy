/** Where the blog's cache does not keep its promise, and exactly when it does: pages under
    non-canonical ids, and names of categories looked up before they exist. */
module BlogLimits {
  import opened CacheTags
  import opened BlogTables
  import opened BlogCache
  import opened BlogState
  import opened BlogInvariant
  import FN = FormatNumber
  import P = Pagination

  /** An id from a URL is canonical when it has no superfluous leading zero. */
  lemma CanonicalWhen(sid: string)
    requires IsSid(sid)
    ensures Canonical(sid) <==> (sid[0] == '0' ==> |sid| == 1)
  {
    FN.DigitsCanonical(FN.ParseDigits(sid));
    if sid[0] == '0' ==> |sid| == 1 {
      FN.CanonicalDigitsUnique(sid);
    }
  }

  lemma IdCanonical(n: nat)
    ensures IsSid(Id(n)) && Atoi(Id(n)) == n && Canonical(Id(n))
  {
    FN.DigitsCanonical(n);
  }

  // ----- pages of posts under non-canonical ids

  /** The key of a cached post page is the text of the URL; the trigger that changes of the post
      raise is the number.  Apart from that, the page goes only with its surroundings. */
  lemma PostPageSurvives(st: State, sid: string, ts: set<Tag>)
    requires Ok(st) && PostTag(sid) in st.cache
    ensures IsSid(sid)
    ensures PostTag(sid) in RiseAll(st.cache, ts) <==> PostTag(sid) !in ts && ts !! PageTriggers(st.db)
    ensures PostTag(Id(Atoi(sid))) == PostTag(sid) <==> Canonical(sid)
  {
    assert EntryOk(st.db, PostTag(sid), st.cache[PostTag(sid)]);
  }

  /** A removed post is served from the cache afterwards exactly under non-canonical ids. */
  lemma RemovedPostStays(st: State, sid: string, f: PostForm, now: int)
    requires Ok(st) && PostTag(sid) in st.cache && IsSid(sid) && Atoi(sid) in st.db.posts && Atoi(sid) != 0 && f.remove
    ensures var st' := AfterSavePost(st, Atoi(sid), f, now, 0);
            && Atoi(sid) !in st'.db.posts
            && (PostTag(sid) in st'.cache <==> !Canonical(sid))
  {
    PostPageSurvives(st, sid, {AllComments, PostTag(Id(Atoi(sid)))});
  }

  /** After a comment on its post has been written, edited or erased, a page is still in the cache
      exactly under a non-canonical id. */
  lemma CommentedPostStays(st: State, sid: string, row: Comment, cid: nat, erase: bool, author: string, email: string,
                           url: string, content: string)
    requires Ok(st) && PostTag(sid) in st.cache && IsSid(sid)
    ensures Atoi(sid) in st.db.posts && st.db.posts[Atoi(sid)].isOpen ==>
              (PostTag(sid) in AfterPostback(st, Atoi(sid), true, row, cid).cache <==> !Canonical(sid))
    ensures cid in st.db.comments && st.db.comments[cid].postId == Atoi(sid) ==>
              (PostTag(sid) in AfterSaveComment(st, cid, erase, author, email, url, content).cache <==> !Canonical(sid))
  {
    PostPageSurvives(st, sid, {PostTag(Id(Atoi(sid))), AllComments});
    assert {PostTag(Id(Atoi(sid))), AllComments} !! PageTriggers(st.db);
  }

  /** A page that was right no longer is when its post gets a comment. */
  lemma CommentOutdates(st: State, id: nat, v: PostView, row: Comment, cid: nat)
    requires PostFresh(st.db, id, v) && cid !in st.db.comments
    ensures !PostFresh(AfterPostback(st, id, true, row, cid).db, id, v)
  {
    var comments := AfterPostback(st, id, true, row, cid).db.comments;
    assert cid in comments && comments[cid].postId == id;
    forall i | 0 <= i < |v.comments|
      ensures v.comments[i].id != cid
    {
      assert CommentRow(st.db.comments, id, v.comments[i]);
    }
    assert ViewOf(comments[cid], cid).id == cid;
  }

  /** Nor when one of its comments is erased. */
  lemma EraseOutdates(st: State, id: nat, v: PostView, cid: nat, author: string, email: string, url: string,
                      content: string)
    requires PostFresh(st.db, id, v) && cid in st.db.comments && st.db.comments[cid].postId == id
    ensures !PostFresh(AfterSaveComment(st, cid, true, author, email, url, content).db, id, v)
  {
    var comments := AfterSaveComment(st, cid, true, author, email, url, content).db.comments;
    var row := ViewOf(st.db.comments[cid], cid);
    var i :| 0 <= i < |v.comments| && v.comments[i] == row;
    assert !CommentRow(comments, id, v.comments[i]);
  }

  /** Editing one of its comments leaves a page right exactly when it changes nothing that is shown. */
  lemma EditCommentOutdates(st: State, id: nat, v: PostView, cid: nat, author: string, email: string, url: string,
                            content: string)
    requires PostFresh(st.db, id, v) && cid in st.db.comments && st.db.comments[cid].postId == id
    ensures PostFresh(AfterSaveComment(st, cid, false, author, email, url, content).db, id, v)
            <==> (var c := st.db.comments[cid]; (author, url, content) == (c.author, c.url, c.content))
  {
    var c0, comments := st.db.comments, AfterSaveComment(st, cid, false, author, email, url, content).db.comments;
    assert ViewOf(c0[cid], cid) in v.comments;
    var i :| 0 <= i < |v.comments| && v.comments[i] == ViewOf(c0[cid], cid);
    if ViewOf(comments[cid], cid) == ViewOf(c0[cid], cid) {
      forall j | 0 <= j < |v.comments|
        ensures CommentRow(comments, id, v.comments[j])
      {
        assert CommentRow(c0, id, v.comments[j]);
      }
    } else {
      assert !CommentRow(comments, id, v.comments[i]);
    }
  }

  lemma NotZero(db: Db)
    requires 0 !in db.cats
    ensures CatTag(Id(0)) !in PageTriggers(db)
  {
  }

  /** An edit raises none of the triggers of the sidebar. */
  predicate LeavesSidebar(db: Db, id: nat, f: PostForm) {
    Adds(db, id, f) == {} && (f.changeStatus ==> CatsOf(db, id) == {})
  }

  lemma EditLeavesSidebar(db: Db, id: nat, f: PostForm)
    requires CatTag(Id(0)) !in PageTriggers(db)
    ensures EditTriggers(db, id, f) !! PageTriggers(db) <==> LeavesSidebar(db, id, f)
    ensures forall s :: PostTag(s) in EditTriggers(db, id, f) <==> s == Id(id)
  {
    assert forall c :: c in Adds(db, id, f) || c in CatsOf(db, id) ==> CatTag(Id(c)) in PageTriggers(db);
    if Adds(db, id, f) != {} {
      var c :| c in Adds(db, id, f);
      assert CatTag(Id(c)) in EditTriggers(db, id, f);
    } else if f.changeStatus && CatsOf(db, id) != {} {
      var c :| c in CatsOf(db, id);
      assert CatTag(Id(c)) in EditTriggers(db, id, f);
    }
  }

  /** An edited post, published or unpublished or not, is served from the cache as it was exactly
      when the id is not canonical, the edit adds no category, and no change of status meets a
      category of the post: those would drop every page with a sidebar. */
  lemma EditedPostStays(st: State, sid: string, f: PostForm, now: int)
    requires Ok(st) && PostTag(sid) in st.cache && IsSid(sid) && Atoi(sid) in st.db.posts && Atoi(sid) != 0 && !f.remove
    ensures PostTag(sid) in AfterSavePost(st, Atoi(sid), f, now, 0).cache
            <==> !Canonical(sid) && LeavesSidebar(st.db, Atoi(sid), f)
  {
    PostPageSurvives(st, sid, EditTriggers(st.db, Atoi(sid), f));
    NotZero(st.db);
    EditLeavesSidebar(st.db, Atoi(sid), f);
    hide EditTriggers, PageTriggers, LeavesSidebar, EditPost, Ok;
  }

  /** A page that was right no longer is when an edit changes what it shows. */
  lemma EditOutdates(st: State, id: nat, v: PostView, f: PostForm, now: int)
    requires PostFresh(st.db, id, v) && id != 0 && !f.remove
    ensures PostFresh(AfterSavePost(st, id, f, now, 0).db, id, v)
            <==> EditedPost(st.db.posts[id], f, now) == st.db.posts[id]
  {
  }

  /** The feed of a removed category is served from the cache afterwards exactly under
      non-canonical ids. */
  lemma RemovedFeedStays(st: State, sid: string)
    requires Ok(st) && RssCat(sid) in st.cache && IsSid(sid)
    ensures var st' := AfterRemoveCategory(st, Atoi(sid), true);
            && Atoi(sid) !in st'.db.cats && !InUse(st'.db, Atoi(sid))
            && (RssCat(sid) in st'.cache <==> !Canonical(sid))
  {
    assert EntryOk(st.db, RssCat(sid), st.cache[RssCat(sid)]);
  }

  // ----- names of categories

  /** Asking for a category before it exists can cache its name as empty; creating the category
      does not raise the trigger of that entry, so its listing is still refused afterwards. */
  lemma EmptyNameStays(st: State, cat: nat, page: nat, q: string, ranking: seq<nat>, side: seq<PageLink>, name: string,
                       ranking': seq<nat>, side': seq<PageLink>)
    requires Ok(st) && cat > 0 && cat !in st.db.cats
    requires MaxCatId !in st.cache && CatName(cat) !in st.cache && SummaryTag(cat, page, q) !in st.cache
    ensures var st1 := AfterViewSummary(st, cat, page, q, ranking, side);
            var st2 := Changed(st1, AddCat(st1.db, cat, name), {AllCats});
            var st3 := AfterViewSummary(st2, cat, page, q, ranking', side');
            && CatName(cat) in st2.cache && st2.cache[CatName(cat)].value == Frame("")
            && cat in st2.db.cats && st2.db.cats[cat] == name
            && SummaryTag(cat, page, q) !in st3.cache
  {
    var st1 := AfterViewSummary(st, cat, page, q, ranking, side);
    var s0 := MaxStored(st.db, Session(st.cache, {})).AddTriggers({CatTag(Id(cat))});
    assert st1.cache == s0.Stored(CatName(cat), Frame(""), {CatTag(Id(cat))}).cache;
  }

  /** Every cached category name is the name of the category, or empty if there is none. */
  ghost predicate NamesRight(st: State) {
    forall c :: CatName(c) in st.cache ==> NameRight(st, c)
  }

  predicate NameRight(st: State, c: nat)
    requires CatName(c) in st.cache
  {
    st.cache[CatName(c)].value == Frame(if c in st.db.cats then st.db.cats[c] else "")
  }

  lemma NameKept(st: State, st': State, c: nat)
    requires CatName(c) in st.cache && NameRight(st, c) && CatName(c) in st'.cache
    requires st'.cache[CatName(c)] == st.cache[CatName(c)]
    requires c in st'.db.cats <==> c in st.db.cats
    requires c in st.db.cats ==> st'.db.cats[c] == st.db.cats[c]
    ensures NameRight(st', c)
  {
  }

  /** Raising triggers leaves the remaining names alone. */
  lemma ChangedNames(st: State, db: Db, ts: set<Tag>)
    requires Ok(st) && NamesRight(st)
    requires forall c :: CatTag(Id(c)) !in ts ==> (c in db.cats <==> c in st.db.cats)
    requires forall c :: CatTag(Id(c)) !in ts && c in st.db.cats ==> db.cats[c] == st.db.cats[c]
    ensures NamesRight(Changed(st, db, ts))
  {
  }

  /** Handlers that fill the cache store no names but right ones. */
  ghost predicate OnlyRightNames(db: Db, before: Cache, after: Cache) {
    forall c :: CatName(c) in after ==>
      || (CatName(c) in before && after[CatName(c)] == before[CatName(c)])
      || after[CatName(c)].value == Frame(if c in db.cats then db.cats[c] else "")
  }

  lemma LoadInfoNames(db: Db, s: Session)
    ensures OnlyRightNames(db, s.cache, LoadInfo(db, s).0.cache)
  {
  }

  lemma SurroundNames(db: Db, s: Session, side: seq<PageLink>)
    ensures OnlyRightNames(db, s.cache, Surround(db, s, side).0.cache)
  {
  }

  lemma SummaryBuiltNames(db: Db, s: Session, cat: nat, page: nat, q: string, ranking: seq<nat>, side: seq<PageLink>)
    ensures OnlyRightNames(db, s.cache, SummaryBuilt(db, s, cat, page, q, ranking, side))
  {
    hide Surround, ListedRows;
    var (s1, n) := RecordCount(db, s, cat, q);
    SurroundNames(db, s1.AddTriggers(PostTags(Take(ranking, page * 10, 10))), side);
  }

  lemma SummaryCategoryNames(db: Db, s: Session, cat: nat, page: nat, q: string, ranking: seq<nat>, side: seq<PageLink>)
    ensures OnlyRightNames(db, s.cache, SummaryCategory(db, s, cat, page, q, ranking, side))
  {
    hide SummaryBuilt;
    var s1 := s.AddTriggers({CatTag(Id(cat))});
    var s2 := if cat == 0 then s1 else CategoryName(db, s1, cat).0;
    SummaryBuiltNames(db, s2, cat, page, q, ranking, side);
  }

  lemma SummaryNames(st: State, cat: nat, page: nat, q: string, ranking: seq<nat>, side: seq<PageLink>)
    ensures OnlyRightNames(st.db, st.cache, AfterViewSummary(st, cat, page, q, ranking, side).cache)
  {
    hide SummaryCategory, MaxText;
    var s := Session(st.cache, {});
    SummaryCategoryNames(st.db, s, cat, page, q, ranking, side);
    if MaxCatId in st.cache {
      SummaryCategoryNames(st.db, s.Fetched(MaxCatId), cat, page, q, ranking, side);
    } else {
      SummaryCategoryNames(st.db, MaxStored(st.db, s), cat, page, q, ranking, side);
    }
  }

  lemma ViewPostNames(st: State, sid: string, comments: seq<CommentView>, side: seq<PageLink>)
    requires IsSid(sid)
    ensures OnlyRightNames(st.db, st.cache, AfterViewPost(st, sid, comments, side).cache)
  {
    hide Surround;
    SurroundNames(st.db, Session(st.cache, {}), side);
  }

  lemma ViewPageNames(st: State, sid: string, side: seq<PageLink>)
    requires IsSid(sid)
    ensures OnlyRightNames(st.db, st.cache, AfterViewPage(st, sid, side).cache)
  {
    hide Surround;
    SurroundNames(st.db, Session(st.cache, {}), side);
  }

  lemma ViewCommentsNames(st: State, newest: seq<CommentItem>)
    ensures OnlyRightNames(st.db, st.cache, AfterViewComments(st, newest).cache)
  {
    hide LoadInfo, Take, FedAll, PostTags;
    LoadInfoNames(st.db, Session(st.cache, {}));
  }

  lemma ViewRssNames(st: State, ranking: seq<nat>)
    ensures OnlyRightNames(st.db, st.cache, AfterViewRss(st, ranking).cache)
  {
    hide LoadInfo, Take, FedAll, PostTags;
    LoadInfoNames(st.db, Session(st.cache, {CatTag(Id(0))} + PostTags(Take(ranking, 0, 10))));
  }

  lemma ViewRssCategoryNames(st: State, sid: string, ranking: seq<nat>)
    requires IsSid(sid)
    ensures OnlyRightNames(st.db, st.cache, AfterViewRssCategory(st, sid, ranking).cache)
  {
    hide LoadInfo, Take, FedAll, PostTags;
    LoadInfoNames(st.db, Session(st.cache, {CatTag(sid)} + PostTags(Take(ranking, 0, 10))));
  }

  lemma ShowAdminNames(st: State)
    ensures OnlyRightNames(st.db, st.cache, AfterShowAdmin(st).cache)
  {
    hide LoadInfo, Take, FedAll, PostTags;
    LoadInfoNames(st.db, Session(st.cache, {}));
  }

  lemma ViewNames(st: State, r: Request)
    requires IsView(r)
    ensures OnlyRightNames(st.db, st.cache, Step(st, r).cache)
  {
    hide Surround, LoadInfo, AfterViewPost, AfterViewPage, AfterViewSummary, AfterViewComments, AfterViewRss,
      AfterViewRssCategory, AfterShowAdmin, OnlyRightNames, IsSid;
    SameNames(st.db, st.cache);
    match r
    case ViewPost(sid, comments, side) => if IsSid(sid) { ViewPostNames(st, sid, comments, side); }
    case ViewPage(sid, side) => if IsSid(sid) { ViewPageNames(st, sid, side); }
    case ViewSummary(cat, page, q, ranking, side) => SummaryNames(st, cat, page, q, ranking, side);
    case ViewComments(newest) => ViewCommentsNames(st, newest);
    case ViewRss(ranking) => ViewRssNames(st, ranking);
    case ViewRssCategory(sid, ranking) => if IsSid(sid) { ViewRssCategoryNames(st, sid, ranking); }
    case ShowPage(side) => SurroundNames(st.db, Session(st.cache, {}), side);
    case ShowAdmin => ShowAdminNames(st);
  }

  lemma SameNames(db: Db, c: Cache)
    ensures OnlyRightNames(db, c, c)
  {
  }

  /** While the cached names are right, a request makes one wrong exactly when it creates a category
      whose name has been looked up, and cached as empty, before. */
  lemma NamesStayRight(st: State, r: Request)
    requires Ok(st) && NamesRight(st) && Allowed(st, r)
    ensures NamesRight(Step(st, r)) <==> !(r.NewCategory? && CatName(r.cat) in st.cache)
  {
    match r
    case NewCategory(cat, name) =>
      var st' := Step(st, r);
      if CatName(cat) in st.cache {
        assert EntryOk(st.db, CatName(cat), st.cache[CatName(cat)]);
        assert NameRight(st, cat) && CatName(cat) in st'.cache && !NameRight(st', cat);
      } else {
        forall c | CatName(c) in st'.cache
          ensures NameRight(st', c)
        {
          NameKept(st, st', c);
        }
      }
    case RenameCategory(cat, name) => ChangedNames(st, RenameCat(st.db, cat, name), {AllCats, CatTag(Id(cat))});
    case RemoveCategory(cat, _) => ChangedNames(st, DropCat(st.db, cat), {AllCats, CatTag(Id(cat))});
    case SaveOptions(info) => ChangedNames(st, st.db.(info := info), {Options});
                              LoadInfoNames(st.db.(info := info), Session(RiseAll(st.cache, {Options}), {}));
    case Configure(_, _, _) =>
    case ClearCache => LoadInfoNames(st.db, Session(map[], {}));
    case NewSession =>
    case _ => NamesWithoutCategories(st, r);
  }

  lemma NamesWithoutCategories(st: State, r: Request)
    requires NamesRight(st) && Allowed(st, r)
    requires IsView(r) || r.SavePost? || r.Postback? || r.SaveComment? || r.SavePage?
    ensures NamesRight(Step(st, r))
  {
    hide Allowed, Step;
    if IsView(r) {
      ViewNames(st, r);
      ViewKeepsTables(st, r);
    } else {
      EditOnlyDrops(st, r);
    }
    forall c | CatName(c) in Step(st, r).cache
      ensures NameRight(Step(st, r), c)
    {
    }
  }

  /** So the cached names are right after any run in which no such category is created. */
  lemma {:induction false} NamesRightAfter(st: State, rs: seq<Request>)
    requires Ok(st) && NamesRight(st) && AllAllowed(st, rs)
    requires forall i :: 0 <= i < |rs| && rs[i].NewCategory? ==> CatName(rs[i].cat) !in Run(st, rs[..i]).cache
    ensures NamesRight(Run(st, rs))
    decreases |rs|
  {
    if rs != [] {
      var before, last := rs[..|rs| - 1], rs[|rs| - 1];
      forall i | 0 <= i < |before|
        ensures Allowed(Run(st, before[..i]), before[i])
        ensures before[i].NewCategory? ==> CatName(before[i].cat) !in Run(st, before[..i]).cache
      {
        assert before[..i] == rs[..i];
      }
      NamesRightAfter(st, before);
      RunOk(st, before);
      assert Allowed(Run(st, rs[..|rs| - 1]), last);
      NamesStayRight(Run(st, before), last);
    }
  }

  // ----- redirects of a listing

  lemma CountAgain(db: Db, s: Session, cat: nat, q: string, ctx: set<Tag>)
    ensures var (s1, n) := RecordCount(db, s, cat, q);
            RecordCount(db, Session(s1.cache, ctx), cat, q).1 == n
  {
  }

  lemma NameAgain(db: Db, s: Session, cat: nat, q: string, ctx: set<Tag>)
    ensures var (s1, name) := CategoryName(db, s, cat);
            var c := RecordCount(db, s1, cat, q).0.cache;
            && CategoryName(db, Session(c, ctx), cat).1 == name && CategoryName(db, Session(c, ctx), cat).0.cache == c
  {
  }

  lemma BuiltLands(db: Db, s: Session, cat: nat, page: nat, q: string, current: nat, ranking: seq<nat>,
                   side: seq<PageLink>)
    requires BuiltReply(db, s, cat, page, q) == Redirect(current)
    ensures SummaryBuilt(db, s, cat, page, q, ranking, side) == RecordCount(db, s, cat, q).0.cache
    ensures forall s2: Session :: RecordCount(db, s2, cat, q).1 == RecordCount(db, s, cat, q).1 ==>
              && BuiltReply(db, s2, cat, current, q) == Fresh
              && SummaryTag(cat, current, q) in SummaryBuilt(db, s2, cat, current, q, ranking, side)
  {
    hide RecordCount, Surround, ListedAll;
    P.RedirectOnce(RecordCount(db, s, cat, q).1, page);
  }

  lemma CategoryLands(db: Db, s: Session, cat: nat, page: nat, q: string, current: nat, ranking: seq<nat>,
                      side: seq<PageLink>,
                      ctx: set<Tag>, ranking': seq<nat>, side': seq<PageLink>)
    requires CategoryReply(db, s, cat, page, q) == Redirect(current)
    ensures var c := SummaryCategory(db, s, cat, page, q, ranking, side);
            && SummaryTag(cat, page, q) !in c
            && (CategoryReply(db, Session(c, ctx), cat, current, q) == Fresh
                 || CategoryReply(db, Session(c, ctx), cat, current, q) == FromCache)
            && SummaryTag(cat, current, q) in SummaryCategory(db, Session(c, ctx), cat, current, q, ranking', side')
            && (MaxCatId in s.cache ==> MaxCatId in c && c[MaxCatId] == s.cache[MaxCatId])
  {
    hide BuiltReply, SummaryBuilt, CategoryName, RecordCount;
    var s1 := s.AddTriggers({CatTag(Id(cat))});
    var s2 := if cat == 0 then s1 else CategoryName(db, s1, cat).0;
    BuiltLands(db, s2, cat, page, q, current, ranking, side);
    BuiltLands(db, s2, cat, page, q, current, ranking', side');
    forall k | k == MaxCatId || k == SummaryTag(cat, page, q)
      ensures var c := RecordCount(db, s2, cat, q).0.cache;
              (k in c <==> k in s.cache) && (k in c ==> c[k] == s.cache[k])
    {
      OtherKeys(db, s1, cat, q, k);
      OtherKeys(db, s2, cat, q, k);
    }
    var c := SummaryCategory(db, s, cat, page, q, ranking, side);
    var t1 := Session(c, ctx).AddTriggers({CatTag(Id(cat))});
    NameAgain(db, s1, cat, q, t1.ctx);
    CountAgain(db, s2, cat, q, if cat == 0 then t1.ctx else CategoryName(db, t1, cat).0.ctx);
  }

  lemma OtherKeys(db: Db, s: Session, cat: nat, q: string, k: Tag)
    requires !k.CatName? && !k.CatCount?
    ensures var c := CategoryName(db, s, cat).0.cache; (k in c <==> k in s.cache) && (k in c ==> c[k] == s.cache[k])
    ensures var c := RecordCount(db, s, cat, q).0.cache; (k in c <==> k in s.cache) && (k in c ==> c[k] == s.cache[k])
  {
  }

  /** The page a listing redirects to is shown by the next request for it: the count that led to
      the redirect is still in the cache, and so is what made the category acceptable. */
  lemma RedirectLands(st: State, cat: nat, page: nat, q: string, current: nat, ranking: seq<nat>, side: seq<PageLink>,
                      ranking': seq<nat>, side': seq<PageLink>)
    requires Ok(st) && SummaryReply(st, cat, page, q) == Redirect(current)
    ensures var st1 := AfterViewSummary(st, cat, page, q, ranking, side);
            && st1.db == st.db && SummaryTag(cat, page, q) !in st1.cache
            && (SummaryReply(st1, cat, current, q) == Fresh || SummaryReply(st1, cat, current, q) == FromCache)
            && SummaryTag(cat, current, q) in AfterViewSummary(st1, cat, current, q, ranking', side').cache
  {
    hide CategoryReply, SummaryCategory;
    var s := if cat == 0 then Session(st.cache, {})
             else if MaxCatId in st.cache then Session(st.cache, {}).Fetched(MaxCatId)
             else MaxStored(st.db, Session(st.cache, {}));
    if cat != 0 && MaxCatId !in st.cache {
      MaxHolds(st, s, cat, page, q);
    }
    var c := SummaryCategory(st.db, s, cat, page, q, ranking, side);
    assert AfterViewSummary(st, cat, page, q, ranking, side).cache == c;
    CategoryLands(st.db, s, cat, page, q, current, ranking, side, {}, ranking', side');
    if cat != 0 {
      CategoryLands(st.db, s, cat, page, q, current, ranking, side,
                    Session(c, {}).Fetched(MaxCatId).ctx, ranking', side');
    }
  }

  /** A category that is not refused is not beyond the maximum stored with it. */
  lemma MaxHolds(st: State, s: Session, cat: nat, page: nat, q: string)
    requires Ok(st) && cat != 0 && s == MaxStored(st.db, Session(st.cache, {}))
    requires CategoryReply(st.db, s, cat, page, q).Redirect?
    ensures !BeyondMax(s.cache[MaxCatId].value, cat)
  {
    hide BuiltReply;
    StoredOk(st.db, Session(st.cache, {}), MaxCatId, Frame(MaxText(st.db.cats)), {AllCats});
    CategoryNameOk(st.db, s.AddTriggers({CatTag(Id(cat))}), cat);
    assert cat in st.db.cats;
    FN.DigitsCanonical(MaxOf(st.db.cats.Keys));
  }

  // ----- the database always has an answer

  lemma LeastExists(s: set<nat>, key: map<nat, int>)
    requires s != {} && s <= key.Keys
    ensures exists m :: m in s && forall c :: c in s ==> key[m] <= key[c]
  {
    var x :| x in s;
    var rest := s - {x};
    if rest == {} {
      assert s == {x};
    } else {
      LeastExists(rest, key);
      var m :| m in rest && forall c :: c in rest ==> key[m] <= key[c];
      var low := if key[x] < key[m] then x else m;
      forall c | c in s
        ensures key[low] <= key[c]
      {
        assert c == x || c in rest;
      }
    }
  }

  /** Any finite set of rows has an order by a key, largest first. */
  lemma {:induction false} OrderExists(s: set<nat>, key: map<nat, int>) returns (ids: seq<nat>)
    requires s <= key.Keys
    ensures forall i, j :: 0 <= i < j < |ids| ==> ids[i] != ids[j]
    ensures forall p :: p in ids <==> p in s
    ensures forall i, j :: 0 <= i < j < |ids| ==> key[ids[i]] >= key[ids[j]]
    decreases |s|
  {
    if s == {} {
      ids := [];
    } else {
      LeastExists(s, key);
      var m :| m in s && forall c :: c in s ==> key[m] <= key[c];
      var front := OrderExists(s - {m}, key);
      ids := front + [m];
      forall i | 0 <= i < |front|
        ensures front[i] != m && key[front[i]] >= key[m]
      {
        assert front[i] in front;
      }
    }
  }

  lemma RankingExists(rows: map<nat, int>) returns (ids: seq<nat>)
    ensures IsRanking(ids, rows)
  {
    ids := OrderExists(rows.Keys, rows);
  }

  lemma OpenListExists(pages: map<nat, StaticPage>) returns (rows: seq<PageLink>)
    ensures IsOpenList(pages, rows)
  {
    var isOpen := set id | id in pages && pages[id].isOpen;
    var ids := OrderExists(isOpen, map id | id in isOpen :: 0);
    forall i | 0 <= i < |ids|
      ensures ids[i] in isOpen
    {
      assert ids[i] in ids;
    }
    rows := seq(|ids|, i requires 0 <= i < |ids| => PageLink(ids[i], pages[ids[i]].title));
    forall id | id in pages && pages[id].isOpen
      ensures PageLink(id, pages[id].title) in rows
    {
      assert id in isOpen && id in ids;
      var i :| 0 <= i < |ids| && ids[i] == id;
      assert rows[i] == PageLink(id, pages[id].title);
    }
  }

  lemma CommentListExists(comments: map<nat, Comment>, post: nat) returns (rows: seq<CommentView>)
    ensures IsCommentList(comments, post, rows)
  {
    var own := CommentsOf(comments, post);
    var key := map c | c in own :: -comments[c].time;
    var ids := OrderExists(own, key);
    forall i | 0 <= i < |ids|
      ensures ids[i] in own
    {
      assert ids[i] in ids;
    }
    rows := seq(|ids|, i requires 0 <= i < |ids| => ViewOf(comments[ids[i]], ids[i]));
    forall c | c in comments && comments[c].postId == post
      ensures ViewOf(comments[c], c) in rows
    {
      assert c in own && c in ids;
      var i :| 0 <= i < |ids| && ids[i] == c;
      assert rows[i] == ViewOf(comments[c], c);
    }
  }

  lemma IdsDescending(ids: set<nat>) returns (l: seq<nat>)
    ensures forall i, j :: 0 <= i < j < |l| ==> l[i] > l[j]
    ensures forall i :: 0 <= i < |l| ==> l[i] in ids
    ensures forall c :: c in ids ==> exists i :: 0 <= i < |l| && l[i] == c
  {
    var key := map c | c in ids :: c as int;
    l := OrderExists(ids, key);
    assert forall i :: 0 <= i < |l| ==> l[i] in l;
    assert forall i :: 0 <= i < |l| ==> key[l[i]] == l[i];
  }

  lemma NewestExists(comments: map<nat, Comment>) returns (rows: seq<CommentItem>)
    ensures IsNewest(comments, rows)
  {
    var ids := IdsDescending(comments.Keys);
    var n := if |ids| < 10 then |ids| else 10;
    rows := seq(n, i requires 0 <= i < n => NewsOf(comments[ids[i]], ids[i]));
    forall c | c in comments
      ensures NewsOf(comments[c], c) in rows || (|rows| == 10 && c < rows[9].id)
    {
      var i :| 0 <= i < |ids| && ids[i] == c;
      if i < n {
        assert rows[i] == NewsOf(comments[c], c);
      }
    }
  }
}
