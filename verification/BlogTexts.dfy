/** The texts of the blog as a whole on cached pages.  They are kept current by the trigger of the
    options, except that posts of the configuration form do not raise it. */
module BlogTexts {
  import opened CacheTags
  import opened BlogTables
  import opened BlogCache
  import opened BlogState
  import opened BlogInvariant

  /** Cached values that carry the texts. */
  predicate HasTexts(v: Value) {
    v.Listing? || v.Feed? || v.CommentFeed? || v.PostPage? || v.StaticView? || v.Settings?
  }

  predicate ShowsCurrent(db: Db, v: Value) {
    match v
    case Listing(_, chrome) => chrome.info == db.info
    case PostPage(_, chrome) => chrome.info == db.info
    case StaticView(_, _, chrome) => chrome.info == db.info
    case Feed(_, info) => info == db.info
    case CommentFeed(_, info) => info == db.info
    case Settings(info) => info == db.info
    case _ => true
  }

  ghost predicate CacheCurrent(db: Db, c: Cache) {
    forall k :: k in c ==> ShowsCurrent(db, c[k].value)
  }

  /** Every cached page and feed, and the cached options, show the current texts. */
  ghost predicate TextsRight(st: State) {
    CacheCurrent(st.db, st.cache)
  }

  // ----- pages are built with the current texts

  lemma LoadInfoCurrent(db: Db, s: Session)
    requires CacheCurrent(db, s.cache)
    ensures LoadInfo(db, s).1 == db.info && CacheCurrent(db, LoadInfo(db, s).0.cache)
  {
  }

  lemma SurroundCurrent(db: Db, s: Session, side: seq<PageLink>)
    requires CacheCurrent(db, s.cache)
    ensures Surround(db, s, side).1.info == db.info && CacheCurrent(db, Surround(db, s, side).0.cache)
  {
    hide LoadInfo;
    LoadInfoCurrent(db, s);
  }

  lemma SummaryBuiltCurrent(db: Db, s: Session, cat: nat, page: nat, q: string, ranking: seq<nat>, side: seq<PageLink>)
    requires CacheCurrent(db, s.cache)
    ensures CacheCurrent(db, SummaryBuilt(db, s, cat, page, q, ranking, side))
  {
    hide Surround, ListedRows, ListedAll;
    var (s1, n) := RecordCount(db, s, cat, q);
    assert CacheCurrent(db, s1.cache);
    SurroundCurrent(db, s1.AddTriggers(PostTags(Take(ranking, page * 10, 10))), side);
  }

  lemma SummaryCategoryCurrent(db: Db, s: Session, cat: nat, page: nat, q: string, ranking: seq<nat>,
                               side: seq<PageLink>)
    requires CacheCurrent(db, s.cache)
    ensures CacheCurrent(db, SummaryCategory(db, s, cat, page, q, ranking, side))
  {
    hide SummaryBuilt;
    var s1 := s.AddTriggers({CatTag(Id(cat))});
    var s2 := if cat == 0 then s1 else CategoryName(db, s1, cat).0;
    assert CacheCurrent(db, s2.cache);
    hide CategoryName, CacheCurrent;
    SummaryBuiltCurrent(db, s2, cat, page, q, ranking, side);
  }

  lemma SummaryCurrent(st: State, cat: nat, page: nat, q: string, ranking: seq<nat>, side: seq<PageLink>)
    requires TextsRight(st)
    ensures TextsRight(AfterViewSummary(st, cat, page, q, ranking, side))
  {
    hide SummaryCategory;
    var s := Session(st.cache, {});
    SummaryCategoryCurrent(st.db, s, cat, page, q, ranking, side);
    if MaxCatId in st.cache {
      SummaryCategoryCurrent(st.db, s.Fetched(MaxCatId), cat, page, q, ranking, side);
    } else {
      SummaryCategoryCurrent(st.db, MaxStored(st.db, s), cat, page, q, ranking, side);
    }
  }

  lemma ViewPostCurrent(st: State, sid: string, comments: seq<CommentView>, side: seq<PageLink>)
    requires IsSid(sid) && TextsRight(st)
    ensures TextsRight(AfterViewPost(st, sid, comments, side))
  {
    hide Surround;
    SurroundCurrent(st.db, Session(st.cache, {}), side);
  }

  lemma ViewPageCurrent(st: State, sid: string, side: seq<PageLink>)
    requires IsSid(sid) && TextsRight(st)
    ensures TextsRight(AfterViewPage(st, sid, side))
  {
    hide Surround;
    SurroundCurrent(st.db, Session(st.cache, {}), side);
  }

  lemma ViewCommentsCurrent(st: State, newest: seq<CommentItem>)
    requires TextsRight(st)
    ensures TextsRight(AfterViewComments(st, newest))
  {
    hide LoadInfo, Take, FedAll, PostTags;
    LoadInfoCurrent(st.db, Session(st.cache, {}));
  }

  lemma ViewRssCurrent(st: State, ranking: seq<nat>)
    requires TextsRight(st)
    ensures TextsRight(AfterViewRss(st, ranking))
  {
    hide LoadInfo, Take, FedAll, PostTags;
    LoadInfoCurrent(st.db, Session(st.cache, {CatTag(Id(0))} + PostTags(Take(ranking, 0, 10))));
  }

  lemma ViewRssCategoryCurrent(st: State, sid: string, ranking: seq<nat>)
    requires IsSid(sid) && TextsRight(st)
    ensures TextsRight(AfterViewRssCategory(st, sid, ranking))
  {
    hide LoadInfo, Take, FedAll, PostTags;
    LoadInfoCurrent(st.db, Session(st.cache, {CatTag(sid)} + PostTags(Take(ranking, 0, 10))));
  }

  lemma ShowAdminCurrent(st: State)
    requires TextsRight(st)
    ensures TextsRight(AfterShowAdmin(st))
  {
    hide LoadInfo, Take, FedAll, PostTags;
    LoadInfoCurrent(st.db, Session(st.cache, {}));
  }

  lemma ViewCurrent(st: State, r: Request)
    requires IsView(r) && TextsRight(st)
    ensures TextsRight(Step(st, r))
  {
    hide Surround, LoadInfo, AfterViewPost, AfterViewPage, AfterViewSummary, AfterViewComments, AfterViewRss,
      AfterViewRssCategory, AfterShowAdmin, CacheCurrent, IsSid;
    match r
    case ViewPost(sid, comments, side) => if IsSid(sid) { ViewPostCurrent(st, sid, comments, side); }
    case ViewPage(sid, side) => if IsSid(sid) { ViewPageCurrent(st, sid, side); }
    case ViewSummary(cat, page, q, ranking, side) => SummaryCurrent(st, cat, page, q, ranking, side);
    case ViewComments(newest) => ViewCommentsCurrent(st, newest);
    case ViewRss(ranking) => ViewRssCurrent(st, ranking);
    case ViewRssCategory(sid, ranking) => if IsSid(sid) { ViewRssCategoryCurrent(st, sid, ranking); }
    case ShowPage(side) => SurroundCurrent(st.db, Session(st.cache, {}), side);
    case ShowAdmin => ShowAdminCurrent(st);
  }

  // ----- what keeps them current, and what does not

  /** Everything that shows the texts depends on the trigger of the options. */
  lemma TextsGuarded(db: Db, k: Tag, e: Entry)
    requires EntryOk(db, k, e) && HasTexts(e.value)
    ensures Options in e.triggers
  {
  }

  /** Saving the options, clearing the cache and a new session make the cached texts current,
      whatever they were. */
  lemma TextsHealed(st: State, r: Request)
    requires Ok(st) && (r.SaveOptions? || r.ClearCache? || r.NewSession?)
    ensures TextsRight(Step(st, r))
  {
    if r.SaveOptions? {
      var c := RiseAll(st.cache, {Options});
      forall k | k in c
        ensures !HasTexts(c[k].value)
      {
        if HasTexts(c[k].value) {
          TextsGuarded(st.db, k, st.cache[k]);
        }
      }
      assert CacheCurrent(st.db.(info := r.info), c);
      LoadInfoCurrent(st.db.(info := r.info), Session(c, {}));
    }
  }

  /** A post of the configuration form does no harm when it changes nothing or nothing that shows
      the texts is cached. */
  predicate Harmless(st: State, title: string, description: string, contact: string) {
    || AfterConfigure(st, title, description, contact).db == st.db
    || forall k :: k in st.cache ==> !HasTexts(st.cache[k].value)
  }

  lemma DroppedCurrent(db: Db, db': Db, before: Cache, after: Cache)
    requires CacheCurrent(db, before) && OnlyDropped(before, after) && db'.info == db.info
    ensures CacheCurrent(db', after)
  {
  }

  lemma ConfigureHarms(st: State, title: string, description: string, contact: string)
    requires TextsRight(st)
    ensures TextsRight(AfterConfigure(st, title, description, contact)) <==> Harmless(st, title, description, contact)
  {
    var st' := AfterConfigure(st, title, description, contact);
    forall k | k in st.cache
      ensures ShowsCurrent(st'.db, st.cache[k].value) <==> st'.db == st.db || !HasTexts(st.cache[k].value)
    {
      assert ShowsCurrent(st.db, st.cache[k].value);
    }
  }

  /** While the cached texts are current, a request outdates some exactly when it is a post of the
      configuration form that changes them while something that shows them is cached. */
  lemma TextsStayRight(st: State, r: Request)
    requires Ok(st) && TextsRight(st) && Allowed(st, r)
    ensures TextsRight(Step(st, r)) <==> (r.Configure? ==> Harmless(st, r.title, r.description, r.contact))
  {
    hide Allowed, Ok;
    if IsView(r) {
      ViewCurrent(st, r);
    } else if r.SaveOptions? || r.ClearCache? || r.NewSession? {
      TextsHealed(st, r);
    } else if IsEdit(r) {
      EditOnlyDrops(st, r);
      hide Step;
      DroppedCurrent(st.db, Step(st, r).db, st.cache, Step(st, r).cache);
    } else {
      ConfigureHarms(st, r.title, r.description, r.contact);
    }
  }

  /** So they are current after every run in which each such post is harmless. */
  lemma {:induction false} TextsRightAfter(st: State, rs: seq<Request>)
    requires Ok(st) && TextsRight(st) && AllAllowed(st, rs)
    requires forall i :: 0 <= i < |rs| && rs[i].Configure? ==>
               Harmless(Run(st, rs[..i]), rs[i].title, rs[i].description, rs[i].contact)
    ensures TextsRight(Run(st, rs))
    decreases |rs|
  {
    if rs != [] {
      var before, last := rs[..|rs| - 1], rs[|rs| - 1];
      forall i | 0 <= i < |before|
        ensures Allowed(Run(st, before[..i]), before[i])
        ensures before[i].Configure? ==>
                  Harmless(Run(st, before[..i]), before[i].title, before[i].description, before[i].contact)
      {
        assert before[..i] == rs[..i];
      }
      TextsRightAfter(st, before);
      RunOk(st, before);
      assert Allowed(Run(st, rs[..|rs| - 1]), last);
      TextsStayRight(Run(st, before), last);
    }
  }

  /** A page of the administration and then a post of the configuration form: the options in the
      cache are no longer those in the table. */
  lemma ConfigureOutdates(st: State, title: string, description: string, contact: string)
    requires Ok(st) && TextsRight(st) && title != st.db.info.title
    ensures var st1 := Step(st, ShowAdmin);
            var st2 := Step(st1, Configure(title, description, contact));
            && TextsRight(st1) && Ok(st2) && !TextsRight(st2)
            && Options in st2.cache && st2.cache[Options].value == Settings(st.db.info) && st2.db.info != st.db.info
  {
    hide CacheOk, LoadInfo, CacheCurrent, Consistent;
    var s := Session(st.cache, {});
    LoadInfoCurrent(st.db, s);
    LoadInfoOk(st.db, s);
    OptionsCached(st.db, s);
    var st1 := AfterShowAdmin(st);
    ConfigureOk(st1, title, description, contact);
    OldTexts(AfterConfigure(st1, title, description, contact), st.db.info);
  }

  lemma OptionsCached(db: Db, s: Session)
    requires CacheOk(db, s.cache) && CacheCurrent(db, s.cache)
    ensures var c := LoadInfo(db, s).0.cache; Options in c && c[Options].value == Settings(db.info)
  {
    assert Options in s.cache ==> EntryOk(db, Options, s.cache[Options]) && ShowsCurrent(db, s.cache[Options].value);
  }

  lemma OldTexts(st: State, info: Info)
    requires Options in st.cache && st.cache[Options].value == Settings(info) && info != st.db.info
    ensures !TextsRight(st)
  {
    assert !ShowsCurrent(st.db, st.cache[Options].value);
  }
}
