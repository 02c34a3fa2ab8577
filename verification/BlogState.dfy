/** The blog as a state machine over its tables and page cache.  Each request is one step;
    what the database may choose (new row ids, the order of unordered rows and of ties) is part
    of the request. */
module BlogState {
  import opened CacheTags
  import opened BlogTables
  import opened BlogCache
  import FN = FormatNumber
  import P = Pagination

  datatype State = State(db: Db, cache: Cache)

  /** The tables are consistent and every cached object agrees with them. */
  ghost predicate Ok(st: State) {
    Consistent(st.db) && CacheOk(st.db, st.cache)
  }

  datatype Request =
    | SavePost(id: nat, post: PostForm, now: int, newId: nat)
    | Postback(id: nat, send: bool, row: Comment, cid: nat)
    | SaveComment(cid: nat, erase: bool, author: string, email: string, url: string, content: string)
    | NewCategory(cat: nat, name: string)
    | RenameCategory(cat: nat, name: string)
    | RemoveCategory(cat: nat, cascade: bool)
    | SavePage(id: nat, title: string, content: string, remove: bool, changeStatus: bool, newId: nat)
    | ViewPost(sid: string, comments: seq<CommentView>, side: seq<PageLink>)
    | ViewPage(sid: string, side: seq<PageLink>)
    | ViewSummary(cat: nat, page: nat, q: string, ranking: seq<nat>, side: seq<PageLink>)
    | ViewComments(newest: seq<CommentItem>)
    | ViewRss(ranking: seq<nat>)
    | ViewRssCategory(sid: string, ranking: seq<nat>)
    | ShowPage(side: seq<PageLink>)
    | ShowAdmin
    | SaveOptions(info: Info)
    | Configure(title: string, description: string, contact: string)
    | ClearCache
    | NewSession

  /** The requests that only fill the cache. */
  predicate IsView(r: Request) {
    || r.ViewPost? || r.ViewPage? || r.ViewSummary? || r.ViewComments? || r.ViewRss? || r.ViewRssCategory?
    || r.ShowPage? || r.ShowAdmin?
  }

  /** The database's choices are ones it can make. */
  ghost predicate Allowed(st: State, r: Request) {
    match r
    case SavePost(id, _, _, newId) => id == 0 ==> newId > 0 && newId !in st.db.posts
    case Postback(_, _, _, cid) => cid !in st.db.comments
    case NewCategory(cat, name) => cat > 0 && cat !in st.db.cats && name != ""
    case RenameCategory(_, name) => name != ""
    case SavePage(id, _, _, _, _, newId) => id == 0 ==> newId > 0 && newId !in st.db.pages
    case ViewPost(sid, comments, side) =>
      IsSid(sid) && IsCommentList(st.db.comments, Atoi(sid), comments) && IsOpenList(st.db.pages, side)
    case ViewPage(sid, side) => IsSid(sid) && IsOpenList(st.db.pages, side)
    case ViewSummary(cat, _, q, ranking, side) =>
      IsRanking(ranking, ListedRows(st.db, cat, q)) && IsOpenList(st.db.pages, side)
    case ViewComments(newest) => IsNewest(st.db.comments, newest)
    case ViewRss(ranking) => IsRanking(ranking, OpenRows(st.db, ""))
    case ViewRssCategory(sid, ranking) => IsSid(sid) && IsRanking(ranking, IndexRows(st.db, Atoi(sid), ""))
    case ShowPage(side) => IsOpenList(st.db.pages, side)
    case _ => true
  }

  /** Change the tables and raise triggers. */
  function Changed(st: State, db: Db, ts: set<Tag>): State {
    State(db, RiseAll(st.cache, ts))
  }

  // ----- apps/admin/post.cpp

  function CreateTriggers(db: Db, f: PostForm): set<Tag> {
    CatTags(f.addTo * db.cats.Keys) + (if f.changeStatus then {CatTag(Id(0))} else {})
  }

  function EditTriggers(db: Db, id: nat, f: PostForm): set<Tag> {
    {PostTag(Id(id))} + CatTags(Adds(db, id, f))
    + (if f.changeStatus then {CatTag(Id(0))} + CatTags(CatsOf(db, id)) else {})
  }

  function AfterSavePost(st: State, id: nat, f: PostForm, now: int, newId: nat): State {
    if id == 0 then
      if f.remove then st else Changed(st, CreatePost(st.db, newId, f, now), CreateTriggers(st.db, f))
    else if id !in st.db.posts then st
    else if f.remove then Changed(st, RemovePost(st.db, id), {AllComments, PostTag(Id(id))})
    else Changed(st, EditPost(st.db, id, f, now), EditTriggers(st.db, id, f))
  }

  // ----- apps/blog/post.cpp and apps/admin/comment.cpp

  function AfterPostback(st: State, id: nat, send: bool, row: Comment, cid: nat): State {
    if id !in st.db.posts || !st.db.posts[id].isOpen || !send then st
    else Changed(st, AddComment(st.db, cid, row.(postId := id)), {PostTag(Id(id)), AllComments})
  }

  function AfterSaveComment(st: State, cid: nat, erase: bool, author: string, email: string, url: string,
                            content: string): State {
    if cid !in st.db.comments then st
    else
      var ts := {PostTag(Id(st.db.comments[cid].postId)), AllComments};
      if erase then Changed(st, EraseComment(st.db, cid), ts)
      else Changed(st, EditComment(st.db, cid, author, email, url, content), ts)
  }

  // ----- apps/admin/categories.cpp and apps/admin/page.cpp

  function AfterRemoveCategory(st: State, cat: nat, cascade: bool): State {
    if InUse(st.db, cat) && !cascade then st
    else Changed(st, DropCat(st.db, cat), {AllCats, CatTag(Id(cat))})
  }

  function AfterSavePage(st: State, id: nat, title: string, content: string, remove: bool, changeStatus: bool,
                         newId: nat): State {
    if id == 0 then
      if remove then st
      else
        var ts := if changeStatus then {AllPages} else {};
        Changed(st, PutPage(st.db, newId, StaticPage(title, content, changeStatus)), ts)
    else if id !in st.db.pages then st
    else
      var wasOpen := st.db.pages[id].isOpen;
      var ts := {PageTag(Id(id)), AllPages};
      if remove then Changed(st, DropPage(st.db, id), if wasOpen then ts else {})
      else
        var isOpen := if changeStatus then !wasOpen else wasOpen;
        Changed(st, PutPage(st.db, id, StaticPage(title, content, isOpen)), if isOpen || changeStatus then ts else {})
  }

  // ----- apps/basic_master.cpp, apps/blog/master.cpp and the skins

  /** The texts of the blog, from the cache or the table. */
  function LoadInfo(db: Db, s: Session): (Session, Info) {
    if Options in s.cache then
      (s.Fetched(Options), if s.cache[Options].value.Settings? then s.cache[Options].value.info else db.info)
    else (s.Stored(Options, Settings(db.info), {}), db.info)
  }

  /** A page of the administration, among them those shown after saving the options and after
      clearing the cache. */
  function AfterShowAdmin(st: State): State {
    st.(cache := LoadInfo(st.db, Session(st.cache, {})).0.cache)
  }

  /** A post of the form in apps/config.cpp, on a configured blog too: three texts change, the
      copyright line does not, and nothing is raised. */
  function AfterConfigure(st: State, title: string, description: string, contact: string): State {
    st.(db := st.db.(info := st.db.info.(title := title, description := description, contact := contact)))
  }

  /** The sidebar data, from the cache or the tables; its triggers become the page's. */
  function LoadSidebar(db: Db, s: Session, side: seq<PageLink>): (Session, seq<PageLink>) {
    if SidebarInfo in s.cache then
      (s.Fetched(SidebarInfo), if s.cache[SidebarInfo].value.Sidebar? then s.cache[SidebarInfo].value.links else [])
    else
      (s.AddTriggers(SideTriggers(db)).Stored(SidebarInfo, Sidebar(side), SideTriggers(db)), side)
  }

  /** The triggers that loading the sidebar adds. */
  function SideRecorded(db: Db, c: Cache): set<Tag> {
    if SidebarInfo in c then c[SidebarInfo].triggers else SideTriggers(db) + {SidebarInfo}
  }

  /** The surroundings of a blog page: its texts, then the cached frame of the sidebar, which is
      made from the sidebar data and the copyright line. */
  function Surround(db: Db, s: Session, side: seq<PageLink>): (Session, Chrome) {
    var (s1, info) := LoadInfo(db, s);
    if SidebarFrame in s1.cache then
      var v := s1.cache[SidebarFrame].value;
      (s1.Fetched(SidebarFrame), if v.SideFrame? then Chrome(info, v.links, v.copyright) else Chrome(info, [], ""))
    else
      var (s2, links) := LoadSidebar(db, s1, side);
      (s2.AddTriggers({Options}).Stored(SidebarFrame, SideFrame(links, info.copyright),
                                        SideRecorded(db, s1.cache) + {Options}),
       Chrome(info, links, info.copyright))
  }

  // ----- apps/blog/post.cpp and apps/blog/page.cpp, display

  function AfterViewPost(st: State, sid: string, comments: seq<CommentView>, side: seq<PageLink>): State
    requires IsSid(sid)
  {
    var id := Atoi(sid);
    if PostTag(sid) in st.cache || id !in st.db.posts || !st.db.posts[id].isOpen then st
    else
      var p := st.db.posts[id];
      var (s, chrome) := Surround(st.db, Session(st.cache, {}), side);
      st.(cache := s.PageStored(PostTag(sid),
                                PostPage(PostView(p.title, p.abstract_, p.content, p.publish, comments), chrome)))
  }

  function AfterViewPage(st: State, sid: string, side: seq<PageLink>): State
    requires IsSid(sid)
  {
    var id := Atoi(sid);
    if PageTag(sid) in st.cache || id !in st.db.pages || !st.db.pages[id].isOpen then st
    else
      var (s, chrome) := Surround(st.db, Session(st.cache, {}), side);
      st.(cache := s.PageStored(PageTag(sid), StaticView(st.db.pages[id].title, st.db.pages[id].content, chrome)))
  }

  // ----- apps/feed/feed.cpp

  function Take(ids: seq<nat>, offset: nat, n: nat): seq<nat> {
    if offset >= |ids| then [] else if offset + n <= |ids| then ids[offset..offset + n] else ids[offset..]
  }

  /** A row of the post list; a LEFT JOIN without a post yields nulls. */
  function Listed(db: Db, id: nat): Item {
    if id in db.posts then ItemOf(db, id) else Item(id, "", "", false, 0, 0)
  }

  function Fed(db: Db, id: nat): FeedItem {
    if id in db.posts then FeedItemOf(db, id) else FeedItem(id, "", "", false)
  }

  function ListedAll(db: Db, ids: seq<nat>): seq<Item> {
    seq(|ids|, i requires 0 <= i < |ids| => Listed(db, ids[i]))
  }

  function FedAll(db: Db, ids: seq<nat>): seq<FeedItem> {
    seq(|ids|, i requires 0 <= i < |ids| => Fed(db, ids[i]))
  }

  function AfterViewComments(st: State, newest: seq<CommentItem>): State {
    if AllComments in st.cache then st
    else
      var (s, info) := LoadInfo(st.db, Session(st.cache, {}));
      st.(cache := s.PageStored(AllComments, CommentFeed(newest, info)))
  }

  function AfterViewRss(st: State, ranking: seq<nat>): State {
    if RssPosts in st.cache then st
    else
      var ids := Take(ranking, 0, 10);
      var (s, info) := LoadInfo(st.db, Session(st.cache, {CatTag(Id(0))} + PostTags(ids)));
      st.(cache := s.PageStored(RssPosts, Feed(FedAll(st.db, ids), info)))
  }

  function AfterViewRssCategory(st: State, sid: string, ranking: seq<nat>): State
    requires IsSid(sid)
  {
    if RssCat(sid) in st.cache || Atoi(sid) !in st.db.cats then st
    else
      var ids := Take(ranking, 0, 10);
      var (s, info) := LoadInfo(st.db, Session(st.cache, {CatTag(sid)} + PostTags(ids)));
      st.(cache := s.PageStored(RssCat(sid), Feed(FedAll(st.db, ids), info)))
  }

  // ----- apps/blog/summary.cpp

  function ListedRows(db: Db, cat: nat, q: string): map<nat, int> {
    if cat == 0 then OpenRows(db, q) else IndexRows(db, cat, q)
  }

  predicate IsMax(s: set<nat>, m: nat) {
    m in s && forall c :: c in s ==> c <= m
  }

  lemma MaxExists(s: set<nat>) returns (m: nat)
    requires s != {}
    ensures IsMax(s, m)
  {
    m :| m in s;
    var rest := s - {m};
    assert forall c :: c in s ==> c == m || c in rest;
    if rest != {} {
      var n := MaxExists(rest);
      if n > m {
        m := n;
      }
    }
  }

  function MaxOf(s: set<nat>): (m: nat)
    requires s != {}
    ensures m in s && forall c :: c in s ==> c <= m
  {
    assert exists m :: IsMax(s, m) by { var m := MaxExists(s); }
    var m :| IsMax(s, m);
    m
  }

  /** The result of SELECT MAX(id) as a text; a null leaves it empty. */
  function MaxText(cats: map<nat, string>): (text: string)
    ensures MaxOk(cats, text)
  {
    if cats == map[] then "" else Id(MaxOf(cats.Keys))
  }

  function MaxStored(db: Db, s: Session): Session {
    s.Stored(MaxCatId, Frame(MaxText(db.cats)), {AllCats})
  }

  /** The cached maximum says that there is no such category. */
  predicate BeyondMax(v: Value, cat: nat) {
    v.Frame? && FN.AllDigits(v.text) && FN.ParseDigits(v.text) < cat
  }

  function CategoryName(db: Db, s: Session, cat: nat): (Session, string) {
    if CatName(cat) in s.cache then
      (s.Fetched(CatName(cat)), if s.cache[CatName(cat)].value.Frame? then s.cache[CatName(cat)].value.text else "")
    else
      var name := if cat in db.cats then db.cats[cat] else "";
      (s.Stored(CatName(cat), Frame(name), {CatTag(Id(cat))}), name)
  }

  function RecordCount(db: Db, s: Session, cat: nat, q: string): (Session, nat) {
    var k := CatCount(cat, Pattern(q));
    if k in s.cache then (s.Fetched(k), if s.cache[k].value.Count? then s.cache[k].value.n else 0)
    else
      var n := |ListedRows(db, cat, q).Keys|;
      (s.Stored(k, Count(n), {CatTag(Id(cat))}), n)
  }

  /** The listing proper, once category and key have been looked up. */
  function SummaryBuilt(db: Db, s: Session, cat: nat, page: nat, q: string, ranking: seq<nat>,
                        side: seq<PageLink>): Cache {
    var (s1, n) := RecordCount(db, s, cat, q);
    var current := P.Calc(P.State(n, 10, page, 1)).current;
    if current != page then s1.cache
    else
      var ids := Take(ranking, page * 10, 10);
      var (s2, chrome) := Surround(db, s1.AddTriggers(PostTags(ids)), side);
      s2.PageStored(SummaryTag(cat, page, q), Listing(ListedAll(db, ids), chrome))
  }

  function SummaryCategory(db: Db, s: Session, cat: nat, page: nat, q: string, ranking: seq<nat>,
                           side: seq<PageLink>): Cache {
    if SummaryTag(cat, page, q) in s.cache then s.cache
    else
      var s1 := s.AddTriggers({CatTag(Id(cat))});
      if cat == 0 then SummaryBuilt(db, s1, cat, page, q, ranking, side)
      else
        var (s2, name) := CategoryName(db, s1, cat);
        if name == "" then s2.cache else SummaryBuilt(db, s2, cat, page, q, ranking, side)
  }

  function AfterViewSummary(st: State, cat: nat, page: nat, q: string, ranking: seq<nat>, side: seq<PageLink>): State {
    var s := Session(st.cache, {});
    if cat == 0 then st.(cache := SummaryCategory(st.db, s, cat, page, q, ranking, side))
    else if MaxCatId in st.cache then
      if BeyondMax(st.cache[MaxCatId].value, cat) then st
      else st.(cache := SummaryCategory(st.db, s.Fetched(MaxCatId), cat, page, q, ranking, side))
    else st.(cache := SummaryCategory(st.db, MaxStored(st.db, s), cat, page, q, ranking, side))
  }

  /** What the visitor gets: an error page, the cached page, a redirect to an existing page of the
      listing, or a fresh page. */
  datatype Reply = Refused | FromCache | Redirect(page: nat) | Fresh

  function BuiltReply(db: Db, s: Session, cat: nat, page: nat, q: string): Reply {
    var current := P.Calc(P.State(RecordCount(db, s, cat, q).1, 10, page, 1)).current;
    P.CalcInRange(P.State(RecordCount(db, s, cat, q).1, 10, page, 1));
    if current == page then Fresh else Redirect(current)
  }

  function CategoryReply(db: Db, s: Session, cat: nat, page: nat, q: string): Reply {
    if SummaryTag(cat, page, q) in s.cache then FromCache
    else
      var s1 := s.AddTriggers({CatTag(Id(cat))});
      if cat == 0 then BuiltReply(db, s1, cat, page, q)
      else
        var (s2, name) := CategoryName(db, s1, cat);
        if name == "" then Refused else BuiltReply(db, s2, cat, page, q)
  }

  function SummaryReply(st: State, cat: nat, page: nat, q: string): Reply {
    var s := Session(st.cache, {});
    if cat == 0 then CategoryReply(st.db, s, cat, page, q)
    else if MaxCatId in st.cache then
      if BeyondMax(st.cache[MaxCatId].value, cat) then Refused
      else CategoryReply(st.db, s.Fetched(MaxCatId), cat, page, q)
    else CategoryReply(st.db, MaxStored(st.db, s), cat, page, q)
  }

  // ----- the state machine

  function Step(st: State, r: Request): State {
    match r
    case SavePost(id, f, now, newId) => AfterSavePost(st, id, f, now, newId)
    case Postback(id, send, row, cid) => AfterPostback(st, id, send, row, cid)
    case SaveComment(cid, erase, author, email, url, content) =>
      AfterSaveComment(st, cid, erase, author, email, url, content)
    case NewCategory(cat, name) => Changed(st, AddCat(st.db, cat, name), {AllCats})
    case RenameCategory(cat, name) => Changed(st, RenameCat(st.db, cat, name), {AllCats, CatTag(Id(cat))})
    case RemoveCategory(cat, cascade) => AfterRemoveCategory(st, cat, cascade)
    case SavePage(id, title, content, remove, changeStatus, newId) =>
      AfterSavePage(st, id, title, content, remove, changeStatus, newId)
    case ViewPost(sid, comments, side) => if IsSid(sid) then AfterViewPost(st, sid, comments, side) else st
    case ViewPage(sid, side) => if IsSid(sid) then AfterViewPage(st, sid, side) else st
    case ViewSummary(cat, page, q, ranking, side) => AfterViewSummary(st, cat, page, q, ranking, side)
    case ViewComments(newest) => AfterViewComments(st, newest)
    case ViewRss(ranking) => AfterViewRss(st, ranking)
    case ViewRssCategory(sid, ranking) => if IsSid(sid) then AfterViewRssCategory(st, sid, ranking) else st
    case ShowPage(side) => st.(cache := Surround(st.db, Session(st.cache, {}), side).0.cache)
    case ShowAdmin => AfterShowAdmin(st)
    case SaveOptions(info) => AfterShowAdmin(Changed(st, st.db.(info := info), {Options}))
    case Configure(title, description, contact) => AfterConfigure(st, title, description, contact)
    case ClearCache => AfterShowAdmin(st.(cache := map[]))
    case NewSession => st.(cache := map[])
  }
}
