/** The blog's tables, the row changes of each request handler, and the consistency of the
    denormalised columns: `post2cat` repeats publish time and status of its post, and
    `posts.comment_count` repeats the number of comments. */
module BlogTables {
  import T = Text

  datatype Post = Post(title: string, abstract_: string, content: string, publish: int, isOpen: bool, commentCount: nat)

  /** A row of `post2cat`, which is keyed by (post_id, cat_id). */
  datatype Rel = Rel(publish: int, isOpen: bool)

  datatype Comment = Comment(postId: nat, author: string, email: string, url: string, time: int, content: string)

  datatype StaticPage = StaticPage(title: string, content: string, isOpen: bool)

  /** The texts of the blog as a whole, from `text_options`. */
  datatype Info = Info(title: string, description: string, contact: string, copyright: string)

  datatype Db = Db(posts: map<nat, Post>, cats: map<nat, string>, rels: map<(nat, nat), Rel>,
                   comments: map<nat, Comment>, pages: map<nat, StaticPage>, info: Info)

  const EMPTY: Db := Db(map[], map[], map[], map[], map[], Info("", "", "", ""))

  function CommentsOf(comments: map<nat, Comment>, p: nat): set<nat> {
    set c | c in comments && comments[c].postId == p
  }

  predicate RelOk(db: Db, r: (nat, nat)) {
    r in db.rels ==>
      && r.0 in db.posts && r.1 in db.cats
      && db.rels[r] == Rel(db.posts[r.0].publish, db.posts[r.0].isOpen)
  }

  predicate CountOk(db: Db, p: nat) {
    p in db.posts ==> db.posts[p].commentCount == |CommentsOf(db.comments, p)|
  }

  /** Every index row refers to an existing post and category and agrees with the post; every
      comment refers to an existing post; every comment count is right.  No category has id 0,
      which in requests and triggers stands for all posts. */
  ghost predicate Consistent(db: Db) {
    && 0 !in db.cats
    && (forall r :: RelOk(db, r))
    && (forall c :: c in db.comments ==> db.comments[c].postId in db.posts)
    && (forall p :: CountOk(db, p))
  }

  // ----- apps/admin/post.cpp

  datatype PostForm = PostForm(title: string, abstract_: string, content: string, remove: bool, changeStatus: bool,
                               addTo: set<nat>, delFrom: set<nat>)

  /** The categories offered for removal: those of the post. */
  function CatsOf(db: Db, id: nat): set<nat> {
    set r | r in db.rels && r.0 == id && r.1 in db.cats :: r.1
  }

  /** The ticked boxes among the categories the post is not in. */
  function Adds(db: Db, id: nat, f: PostForm): set<nat> {
    f.addTo * (db.cats.Keys - CatsOf(db, id))
  }

  function Dels(db: Db, id: nat, f: PostForm): set<nat> {
    f.delFrom * CatsOf(db, id)
  }

  function NewRels(id: nat, cs: set<nat>, rel: Rel): map<(nat, nat), Rel> {
    map c | c in cs :: (id, c) := rel
  }

  function RelKeys(id: nat, cs: set<nat>): set<(nat, nat)> {
    set c | c in cs :: (id, c)
  }

  function CreatePost(db: Db, id: nat, f: PostForm, now: int): Db {
    db.(posts := db.posts[id := Post(f.title, f.abstract_, f.content, now, f.changeStatus, 0)],
        rels := db.rels + NewRels(id, f.addTo * db.cats.Keys, Rel(now, f.changeStatus)))
  }

  function OpenAfter(p: Post, f: PostForm): bool {
    if f.changeStatus then !p.isOpen else p.isOpen
  }

  function PublishAfter(p: Post, f: PostForm, now: int): int {
    if f.changeStatus && OpenAfter(p, f) then now else p.publish
  }

  function EditedPost(p: Post, f: PostForm, now: int): Post {
    p.(title := f.title, abstract_ := f.abstract_, content := f.content,
       publish := PublishAfter(p, f, now), isOpen := OpenAfter(p, f))
  }

  /** The UPDATE of `post2cat`: publish and status when publishing, the status when unpublishing. */
  function EditedRels(db: Db, id: nat, f: PostForm, now: int): map<(nat, nat), Rel>
    requires id in db.posts
  {
    var isOpen := OpenAfter(db.posts[id], f);
    map r | r in db.rels ::
      if r.0 != id || !f.changeStatus then db.rels[r]
      else if isOpen then Rel(now, isOpen)
      else db.rels[r].(isOpen := isOpen)
  }

  function EditPost(db: Db, id: nat, f: PostForm, now: int): Db
    requires id in db.posts
  {
    var p := EditedPost(db.posts[id], f, now);
    db.(posts := db.posts[id := p],
        rels := EditedRels(db, id, f, now) + NewRels(id, Adds(db, id, f), Rel(p.publish, p.isOpen))
                - RelKeys(id, Dels(db, id, f)))
  }

  function RemovePost(db: Db, id: nat): Db {
    db.(comments := map c | c in db.comments && db.comments[c].postId != id :: db.comments[c],
        rels := map r | r in db.rels && r.0 != id :: db.rels[r],
        posts := db.posts - {id})
  }

  // ----- comments

  /** UPDATE posts SET comment_count = (SELECT count(*) ...). */
  function Recount(db: Db, p: nat): Db {
    if p in db.posts then
      db.(posts := db.posts[p := db.posts[p].(commentCount := |CommentsOf(db.comments, p)|)])
    else db
  }

  function AddComment(db: Db, cid: nat, c: Comment): Db {
    Recount(db.(comments := db.comments[cid := c]), c.postId)
  }

  function EraseComment(db: Db, cid: nat): Db
    requires cid in db.comments
  {
    Recount(db.(comments := db.comments - {cid}), db.comments[cid].postId)
  }

  function EditComment(db: Db, cid: nat, author: string, email: string, url: string, content: string): Db
    requires cid in db.comments
  {
    db.(comments := db.comments[cid := db.comments[cid].(author := author, email := email, url := url,
                                                         content := content)])
  }

  // ----- categories and static pages

  function InUse(db: Db, cat: nat): bool {
    exists r :: r in db.rels && r.1 == cat
  }

  function AddCat(db: Db, cat: nat, name: string): Db {
    db.(cats := db.cats[cat := name])
  }

  function RenameCat(db: Db, cat: nat, name: string): Db {
    if cat in db.cats then db.(cats := db.cats[cat := name]) else db
  }

  function DropCat(db: Db, cat: nat): Db {
    db.(rels := map r | r in db.rels && r.1 != cat :: db.rels[r], cats := db.cats - {cat})
  }

  function PutPage(db: Db, id: nat, p: StaticPage): Db {
    db.(pages := db.pages[id := p])
  }

  function DropPage(db: Db, id: nat): Db {
    db.(pages := db.pages - {id})
  }

  // ----- consistency is kept

  lemma CreatePostConsistent(db: Db, id: nat, f: PostForm, now: int)
    requires Consistent(db) && id !in db.posts
    ensures Consistent(CreatePost(db, id, f, now))
    ensures forall c: nat :: (id, c) !in db.rels
  {
    var db' := CreatePost(db, id, f, now);
    forall c: nat
      ensures (id, c) !in db.rels
    {
      assert RelOk(db, (id, c));
    }
    forall r
      ensures RelOk(db', r)
    {
      assert RelOk(db, r);
    }
    forall p
      ensures CountOk(db', p)
    {
      assert CountOk(db, p);
      if p == id {
        assert CommentsOf(db.comments, p) == {};
      }
    }
  }

  /** The rows inserted for ticked categories never repeat a (post, category) pair. */
  lemma AddsAreNew(db: Db, id: nat, f: PostForm)
    ensures forall c :: c in Adds(db, id, f) ==> (id, c) !in db.rels && c in db.cats
    ensures forall c :: c in Dels(db, id, f) ==> (id, c) in db.rels
  {
  }

  lemma EditPostConsistent(db: Db, id: nat, f: PostForm, now: int)
    requires Consistent(db) && id in db.posts
    ensures Consistent(EditPost(db, id, f, now))
  {
    var db' := EditPost(db, id, f, now);
    AddsAreNew(db, id, f);
    forall r
      ensures RelOk(db', r)
    {
      assert RelOk(db, r);
    }
    forall p
      ensures CountOk(db', p)
    {
      assert CountOk(db, p);
    }
  }

  lemma RemovePostConsistent(db: Db, id: nat)
    requires Consistent(db)
    ensures Consistent(RemovePost(db, id))
  {
    var db' := RemovePost(db, id);
    forall r
      ensures RelOk(db', r)
    {
      assert RelOk(db, r);
    }
    forall p
      ensures CountOk(db', p)
    {
      assert CountOk(db, p);
      if p != id {
        assert CommentsOf(db'.comments, p) == CommentsOf(db.comments, p);
      }
    }
  }

  /** A change to one post's comments followed by a recount of that post. */
  lemma RecountConsistent(db: Db, comments: map<nat, Comment>, p: nat)
    requires Consistent(db)
    requires forall c :: c in comments ==> comments[c].postId in db.posts
    requires forall q :: q != p ==> CommentsOf(comments, q) == CommentsOf(db.comments, q)
    ensures Consistent(Recount(db.(comments := comments), p))
  {
    var db' := Recount(db.(comments := comments), p);
    forall r
      ensures RelOk(db', r)
    {
      assert RelOk(db, r);
    }
    forall q
      ensures CountOk(db', q)
    {
      assert CountOk(db, q);
    }
  }

  lemma AddCommentConsistent(db: Db, cid: nat, c: Comment)
    requires Consistent(db) && cid !in db.comments && c.postId in db.posts
    ensures Consistent(AddComment(db, cid, c))
  {
    var comments := db.comments[cid := c];
    forall q | q != c.postId
      ensures CommentsOf(comments, q) == CommentsOf(db.comments, q)
    {
    }
    RecountConsistent(db, comments, c.postId);
  }

  lemma EraseCommentConsistent(db: Db, cid: nat)
    requires Consistent(db) && cid in db.comments
    ensures Consistent(EraseComment(db, cid))
  {
    var comments := db.comments - {cid};
    var p := db.comments[cid].postId;
    forall q | q != p
      ensures CommentsOf(comments, q) == CommentsOf(db.comments, q)
    {
    }
    RecountConsistent(db, comments, p);
  }

  lemma EditCommentConsistent(db: Db, cid: nat, author: string, email: string, url: string, content: string)
    requires Consistent(db) && cid in db.comments
    ensures Consistent(EditComment(db, cid, author, email, url, content))
  {
    var db' := EditComment(db, cid, author, email, url, content);
    forall r
      ensures RelOk(db', r)
    {
      assert RelOk(db, r);
    }
    forall p
      ensures CountOk(db', p)
    {
      assert CountOk(db, p);
      assert CommentsOf(db'.comments, p) == CommentsOf(db.comments, p);
    }
  }

  lemma CatsConsistent(db: Db, cat: nat, name: string)
    requires Consistent(db)
    ensures cat != 0 ==> Consistent(AddCat(db, cat, name))
    ensures Consistent(RenameCat(db, cat, name)) && Consistent(DropCat(db, cat))
  {
    forall r
      ensures RelOk(AddCat(db, cat, name), r) && RelOk(RenameCat(db, cat, name), r) && RelOk(DropCat(db, cat), r)
    {
      assert RelOk(db, r);
    }
    forall p
      ensures CountOk(AddCat(db, cat, name), p) && CountOk(RenameCat(db, cat, name), p) && CountOk(DropCat(db, cat), p)
    {
      assert CountOk(db, p);
    }
  }

  lemma PagesConsistent(db: Db, db': Db)
    requires Consistent(db) && db' == db.(pages := db'.pages, info := db'.info)
    ensures Consistent(db')
  {
    forall r
      ensures RelOk(db', r)
    {
      assert RelOk(db, r);
    }
    forall p
      ensures CountOk(db', p)
    {
      assert CountOk(db, p);
    }
  }

  // ----- listing queries

  /** The LIKE filter of a search; the empty query does not filter. */
  predicate Matches(p: Post, q: string) {
    q == "" || var pattern := Pattern(q);
               T.Like(pattern, p.title) || T.Like(pattern, p.abstract_) || T.Like(pattern, p.content)
  }

  function Pattern(q: string): string {
    if q == "" then "" else "%" + T.Escape(q) + "%"
  }

  /** Different queries have different patterns, so their cached counts are kept apart. */
  lemma PatternInjective(a: string, b: string)
    requires Pattern(a) == Pattern(b)
    ensures a == b
  {
    T.EscapeRoundTrip(a);
    T.EscapeRoundTrip(b);
    if a != "" && b != "" {
      var p, q := T.Escape(a), T.Escape(b);
      assert ("%" + p + "%")[1..|p| + 1] == p && ("%" + q + "%")[1..|q| + 1] == q;
    }
  }

  /** A search finds the posts that contain the query. */
  lemma MatchesContains(p: Post, q: string)
    requires q != ""
    ensures Matches(p, q) <==> T.Contains(p.title, q) || T.Contains(p.abstract_, q) || T.Contains(p.content, q)
  {
    T.SearchMatches(q, p.title);
    T.SearchMatches(q, p.abstract_);
    T.SearchMatches(q, p.content);
  }

  /** The rows of the category query, read from the index. */
  function IndexRows(db: Db, cat: nat, q: string): map<nat, int> {
    map r | r in db.rels && r.1 == cat && db.rels[r].isOpen
        && (q == "" || (r.0 in db.posts && Matches(db.posts[r.0], q)))
      :: r.0 := db.rels[r].publish
  }

  /** The same rows, read from the posts themselves. */
  function PostRows(db: Db, cat: nat, q: string): map<nat, int> {
    map p | p in db.posts && (p, cat) in db.rels && db.posts[p].isOpen && Matches(db.posts[p], q) :: db.posts[p].publish
  }

  function OpenRows(db: Db, q: string): map<nat, int> {
    map p | p in db.posts && db.posts[p].isOpen && Matches(db.posts[p], q) :: db.posts[p].publish
  }

  /** A possible ORDER BY publish DESC of the rows; the order of ties is up to the database. */
  ghost predicate IsRanking(ids: seq<nat>, rows: map<nat, int>) {
    && (forall i, j :: 0 <= i < j < |ids| ==> ids[i] != ids[j])
    && (forall p :: p in ids <==> p in rows)
    && (forall i, j :: 0 <= i < j < |ids| ==> rows[ids[i]] >= rows[ids[j]])
  }

  /** The category listing over the index is the listing over the posts, up to ties. */
  lemma IndexIsFaithful(db: Db, cat: nat, q: string)
    requires Consistent(db)
    ensures IndexRows(db, cat, q) == PostRows(db, cat, q)
    ensures forall ids :: IsRanking(ids, IndexRows(db, cat, q)) <==> IsRanking(ids, PostRows(db, cat, q))
  {
    var a, b := IndexRows(db, cat, q), PostRows(db, cat, q);
    forall p | p in a
      ensures p in b && b[p] == a[p]
    {
      assert RelOk(db, (p, cat));
    }
    forall p | p in b
      ensures p in a
    {
      assert RelOk(db, (p, cat));
      var r := (p, cat);
      assert r in db.rels && r.1 == cat;
    }
  }

  // ----- the 2-to-3 upgrade

  /** UPDATE post2cat SET is_open = (SELECT posts.is_open ...). */
  function Upgrade23(db: Db): Db {
    db.(rels := map r | r in db.rels ::
          if r.0 in db.posts then db.rels[r].(isOpen := db.posts[r.0].isOpen) else db.rels[r])
  }

  /** A version 2 database lacks only a maintained `post2cat.is_open`. */
  ghost predicate ConsistentBut(db: Db) {
    && 0 !in db.cats
    && (forall r :: r in db.rels ==> r.0 in db.posts && r.1 in db.cats && db.rels[r].publish == db.posts[r.0].publish)
    && (forall c :: c in db.comments ==> db.comments[c].postId in db.posts)
    && (forall p :: CountOk(db, p))
  }

  lemma UpgradeEstablishes(db: Db)
    requires ConsistentBut(db)
    ensures Consistent(Upgrade23(db))
  {
    var db' := Upgrade23(db);
    forall r
      ensures RelOk(db', r)
    {
    }
    forall p
      ensures CountOk(db', p)
    {
      assert CountOk(db, p);
    }
  }
}
