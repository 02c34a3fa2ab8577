/** The request handlers as they run: SQL statements on the tables, loops over check boxes and
    result rows, and calls on the cache interface.  Each handler is proved to take the step of
    the state machine. */
module BlogServer {
  import opened CacheTags
  import opened BlogTables
  import opened BlogCache
  import opened BlogState
  import opened BlogInvariant
  import P = Pagination

  lemma CatTagsMore(cs: set<nat>, c: nat)
    ensures CatTags(cs + {c}) == CatTags(cs) + {CatTag(Id(c))}
    ensures CatTags({}) == {}
  {
  }

  lemma NewRelsMore(id: nat, cs: set<nat>, c: nat, rel: Rel)
    ensures NewRels(id, cs + {c}, rel) == NewRels(id, cs, rel)[(id, c) := rel]
    ensures NewRels(id, {}, rel) == map[]
  {
  }

  lemma RelKeysMore(id: nat, cs: set<nat>, c: nat)
    ensures RelKeys(id, cs + {c}) == RelKeys(id, cs) + {(id, c)}
    ensures RelKeys(id, {}) == {}
  {
  }

  lemma PostTagsMore(ids: seq<nat>, i: nat)
    requires i < |ids|
    ensures PostTags(ids[..i + 1]) == PostTags(ids[..i]) + {PostTag(Id(ids[i]))}
    ensures PostTags(ids[..0]) == {}
  {
  }

  /** What active recorders hold after the triggers `ts` have been added. */
  function Recording(recorders: seq<set<Tag>>, ts: set<Tag>): (r: seq<set<Tag>>)
    ensures |r| == |recorders| && forall i :: 0 <= i < |r| ==> r[i] == recorders[i] + ts
  {
    seq(|recorders|, i requires 0 <= i < |recorders| => recorders[i] + ts)
  }

  lemma RecordingMore(recorders: seq<set<Tag>>, a: set<Tag>, b: set<Tag>)
    ensures Recording(Recording(recorders, a), b) == Recording(recorders, a + b)
    ensures Recording(recorders, {}) == recorders
  {
    assert forall i :: 0 <= i < |recorders| ==> recorders[i] + a + b == recorders[i] + (a + b);
    assert forall i :: 0 <= i < |recorders| ==> recorders[i] + {} == recorders[i];
  }

  lemma RecordingInner(recorders: seq<set<Tag>>, ts: set<Tag>)
    ensures Recording(recorders + [{}], ts) == Recording(recorders, ts) + [ts]
  {
    assert {} + ts == ts;
  }

  class CacheInterface {
    var entries: Cache
    var triggers: set<Tag>
    /** The active trigger recorders, the innermost last. */
    var recorders: seq<set<Tag>>

    ghost function Abs(): Session
      reads this
    {
      Session(entries, triggers)
    }

    constructor ()
      ensures Abs() == Session(map[], {})
    {
      entries, triggers, recorders := map[], {}, [];
    }

    /** A new request starts without triggers and recorders. */
    method Begin()
      modifies this`triggers, this`recorders
      ensures triggers == {} && recorders == []
    {
      triggers, recorders := {}, [];
    }

    method Clear()
      modifies this`entries
      ensures entries == map[]
    {
      entries := map[];
    }

    method Raise(t: Tag)
      modifies this`entries
      ensures entries == Rise(old(entries), t)
    {
      entries := map k | k in entries && t !in entries[k].triggers :: entries[k];
    }

    /** The trigger goes to the page and to every active recorder. */
    method AddTrigger(t: Tag)
      modifies this`triggers, this`recorders
      ensures triggers == old(triggers) + {t} && recorders == Recording(old(recorders), {t})
    {
      for i := 0 to |recorders|
        invariant triggers == old(triggers) && |recorders| == |old(recorders)|
        invariant forall j :: 0 <= j < |recorders| ==> recorders[j] == old(recorders)[j] + (if j < i then {t} else {})
      {
        recorders := recorders[i := recorders[i] + {t}];
      }
      triggers := triggers + {t};
    }

    method AddTriggers(ts: set<Tag>)
      modifies this`triggers, this`recorders
      ensures triggers == old(triggers) + ts && recorders == Recording(old(recorders), ts)
    {
      ghost var done: set<Tag> := {};
      var todo := ts;
      RecordingMore(recorders, {}, {});
      while todo != {}
        invariant todo !! done && ts == todo + done
        invariant triggers == old(triggers) + done && recorders == Recording(old(recorders), done)
        decreases todo
      {
        var t :| t in todo;
        todo := todo - {t};
        AddTrigger(t);
        RecordingMore(old(recorders), done, {t});
        done := done + {t};
      }
      assert done == ts;
    }

    /** `triggers_recorder`: start collecting the triggers added from here on. */
    method Record()
      modifies this`recorders
      ensures recorders == old(recorders) + [{}]
    {
      recorders := recorders + [{}];
    }

    /** `triggers_recorder::detach`: what the innermost recorder has collected. */
    method Detach() returns (ts: set<Tag>)
      requires recorders != []
      modifies this`recorders
      ensures recorders == old(recorders)[..|old(recorders)| - 1] && ts == old(recorders)[|old(recorders)| - 1]
    {
      ts := recorders[|recorders| - 1];
      recorders := recorders[..|recorders| - 1];
    }

    method HasPage(k: Tag) returns (hit: bool)
      ensures hit <==> k in entries
    {
      hit := k in entries;
    }

    method StorePage(k: Tag, v: Value)
      modifies this
      ensures entries == old(Abs()).PageStored(k, v)
    {
      AddTrigger(k);
      entries := entries[k := Entry(v, triggers)];
    }

    /** A hit adds the triggers of the object to the page and to every active recorder. */
    method Fetch(k: Tag) returns (hit: bool, v: Value)
      modifies this`triggers, this`recorders
      ensures hit <==> k in old(entries)
      ensures hit ==> v == old(entries)[k].value && Abs() == old(Abs()).Fetched(k)
                      && recorders == Recording(old(recorders), old(entries)[k].triggers)
      ensures !hit ==> Abs() == old(Abs()) && recorders == old(recorders)
    {
      if k in entries {
        AddTriggers(entries[k].triggers);
        return true, entries[k].value;
      }
      return false, Count(0);
    }

    method Store(k: Tag, v: Value, ts: set<Tag>)
      modifies this
      ensures Abs() == old(Abs()).Stored(k, v, ts)
      ensures recorders == Recording(old(recorders), ts + {k})
    {
      AddTriggers(ts);
      AddTrigger(k);
      RecordingMore(old(recorders), ts, {k});
      entries := entries[k := Entry(v, ts + {k})];
    }
  }

  class Server {
    const cache: CacheInterface
    var posts: map<nat, Post>
    var cats: map<nat, string>
    var rels: map<(nat, nat), Rel>
    var comments: map<nat, Comment>
    var pages: map<nat, StaticPage>
    var info: Info
    var dbVersion: nat

    ghost function Tables(): Db
      reads this
    {
      Db(posts, cats, rels, comments, pages, info)
    }

    ghost function St(): State
      reads this, cache
    {
      State(Tables(), cache.entries)
    }

    constructor ()
      ensures St() == State(EMPTY, map[]) && fresh(cache)
    {
      cache := new CacheInterface();
      posts, cats, rels, comments, pages, info, dbVersion := map[], map[], map[], map[], map[], EMPTY.info, 3;
    }

    // ----- apps/admin/post.cpp

    method SavePost(id: nat, f: PostForm, now: int, newId: nat)
      modifies this, cache
      ensures St() == AfterSavePost(old(St()), id, f, now, newId)
    {
      if id == 0 {
        if f.remove {
          return;
        }
        InsertPost(newId, f, now);
      } else {
        if id !in posts {
          return;
        }
        if f.remove {
          DeletePost(id);
        } else {
          UpdatePost(id, f, now);
        }
      }
    }

    method InsertPost(id: nat, f: PostForm, now: int)
      modifies this`posts, this`rels, cache
      ensures St() == Changed(old(St()), CreatePost(old(Tables()), id, f, now), CreateTriggers(old(Tables()), f))
    {
      ghost var c0, r0 := cache.entries, rels;
      var openStatus := f.changeStatus;
      posts := posts[id := Post(f.title, f.abstract_, f.content, now, openStatus, 0)];
      AddToCategories(id, f.addTo, cats.Keys, Rel(now, openStatus));
      assert f.addTo * cats.Keys == cats.Keys * f.addTo;
      if openStatus {
        RiseOneMore(c0, CatTags(f.addTo * cats.Keys), CatTag(Id(0)));
        cache.Raise(CatTag(Id(0)));
      } else {
        assert CreateTriggers(old(Tables()), f) == CatTags(f.addTo * cats.Keys);
      }
    }

    /** The loop over the offered categories: a row and a trigger for each one that is ticked. */
    method AddToCategories(id: nat, ticked: set<nat>, offered: set<nat>, rel: Rel)
      modifies this`rels, cache
      ensures rels == old(rels) + NewRels(id, offered * ticked, rel)
      ensures cache.entries == RiseAll(old(cache.entries), CatTags(offered * ticked))
    {
      ghost var c0, r0, done := cache.entries, rels, {};
      var todo := offered;
      RiseOneMore(c0, {}, AllCats);
      CatTagsMore({}, 0);
      NewRelsMore(id, {}, 0, rel);
      while todo != {}
        invariant todo !! done && offered == todo + done
        invariant rels == r0 + NewRels(id, done * ticked, rel)
        invariant cache.entries == RiseAll(c0, CatTags(done * ticked))
        decreases todo
      {
        var c :| c in todo;
        todo := todo - {c};
        TickedMore(c0, r0, id, done, ticked, c, rel);
        if c in ticked {
          rels := rels[(id, c) := rel];
          cache.Raise(CatTag(Id(c)));
        }
        done := done + {c};
      }
      assert done == offered;
    }

    lemma TickedMore(c0: Cache, r0: map<(nat, nat), Rel>, id: nat, done: set<nat>, ticked: set<nat>, c: nat, rel: Rel)
      requires c !in done
      ensures var r, k := r0 + NewRels(id, done * ticked, rel), RiseAll(c0, CatTags(done * ticked));
              && r0 + NewRels(id, (done + {c}) * ticked, rel) == (if c in ticked then r[(id, c) := rel] else r)
              && RiseAll(c0, CatTags((done + {c}) * ticked)) == (if c in ticked then Rise(k, CatTag(Id(c))) else k)
    {
      if c in ticked {
        assert (done + {c}) * ticked == done * ticked + {c};
        NewRelsMore(id, done * ticked, c, rel);
        CatTagsMore(done * ticked, c);
        RiseOneMore(c0, CatTags(done * ticked), CatTag(Id(c)));
      } else {
        assert (done + {c}) * ticked == done * ticked;
      }
    }

    method DeletePost(id: nat)
      modifies this`posts, this`rels, this`comments, cache
      ensures St() == Changed(old(St()), RemovePost(old(Tables()), id), {AllComments, PostTag(Id(id))})
    {
      comments := map c | c in comments && comments[c].postId != id :: comments[c];
      rels := map r | r in rels && r.0 != id :: rels[r];
      posts := posts - {id};
      cache.Raise(AllComments);
      cache.Raise(PostTag(Id(id)));
      RiseOneMore(old(cache.entries), {}, AllComments);
      RiseOneMore(old(cache.entries), {AllComments}, PostTag(Id(id)));
      assert {} + {AllComments} == {AllComments};
    }

    method UpdatePost(id: nat, f: PostForm, now: int)
      requires id in posts
      modifies this`posts, this`rels, cache
      ensures St() == Changed(old(St()), EditPost(old(Tables()), id, f, now), EditTriggers(old(Tables()), id, f))
    {
      ghost var db0, c0 := Tables(), cache.entries;
      var inUse := CatsOf(Db(posts, cats, rels, comments, pages, info), id);
      var publish, openStatus := UpdateRows(id, f, now);
      RaisePost(id, f.changeStatus);
      ghost var t1 := {PostTag(Id(id))} + (if f.changeStatus then {CatTag(Id(0))} else {});
      AddToCategories(id, f.addTo, cats.Keys - inUse, Rel(publish, openStatus));
      LeaveCategories(id, f, inUse);
      assert (cats.Keys - inUse) * f.addTo == Adds(db0, id, f);
      assert inUse * f.delFrom == Dels(db0, id, f);
      RiseThrice(c0, t1, CatTags(Adds(db0, id, f)), if f.changeStatus then CatTags(inUse) else {});
      EditTriggersAre(db0, id, f, t1);
    }

    lemma EditTriggersAre(db: Db, id: nat, f: PostForm, t1: set<Tag>)
      requires t1 == {PostTag(Id(id))} + (if f.changeStatus then {CatTag(Id(0))} else {})
      ensures t1 + CatTags(Adds(db, id, f)) + (if f.changeStatus then CatTags(CatsOf(db, id)) else {})
                == EditTriggers(db, id, f)
    {
    }

    lemma RiseThrice(c: Cache, a: set<Tag>, b: set<Tag>, d: set<Tag>)
      ensures RiseAll(RiseAll(RiseAll(c, a), b), d) == RiseAll(c, a + b + d)
    {
    }

    /** The UPDATE statements of an edit; the publish time and status that new rows get. */
    method UpdateRows(id: nat, f: PostForm, now: int) returns (publish: int, openStatus: bool)
      requires id in posts
      modifies this`posts, this`rels
      ensures posts == old(posts)[id := EditedPost(old(posts)[id], f, now)]
      ensures rels == EditedRels(old(Tables()), id, f, now)
      ensures publish == posts[id].publish && openStatus == posts[id].isOpen
    {
      var isOpen := posts[id].isOpen;
      openStatus := if f.changeStatus then !isOpen else isOpen;
      publish := now;
      if f.changeStatus && openStatus {
        posts := posts[id := posts[id].(title := f.title, abstract_ := f.abstract_, content := f.content,
                                        publish := now, isOpen := openStatus)];
        rels := map r | r in rels :: if r.0 == id then Rel(now, openStatus) else rels[r];
      } else {
        posts := posts[id := posts[id].(title := f.title, abstract_ := f.abstract_, content := f.content,
                                        isOpen := openStatus)];
        publish := posts[id].publish;
        if f.changeStatus {
          rels := map r | r in rels :: if r.0 == id then rels[r].(isOpen := openStatus) else rels[r];
        }
      }
    }

    method RaisePost(id: nat, changeStatus: bool)
      modifies cache`entries
      ensures cache.entries
                == RiseAll(old(cache.entries), {PostTag(Id(id))} + (if changeStatus then {CatTag(Id(0))} else {}))
    {
      if changeStatus {
        cache.Raise(CatTag(Id(0)));
      }
      cache.Raise(PostTag(Id(id)));
    }

    /** The loop over the categories of the post: all their listings change with its status, and
        the rows of those that are ticked go. */
    method LeaveCategories(id: nat, f: PostForm, inUse: set<nat>)
      modifies this`rels, cache
      ensures rels == old(rels) - RelKeys(id, inUse * f.delFrom)
      ensures cache.entries == RiseAll(old(cache.entries), if f.changeStatus then CatTags(inUse) else {})
    {
      ghost var c0, r0, done := cache.entries, rels, {};
      var todo := inUse;
      RiseOneMore(c0, {}, AllCats);
      CatTagsMore({}, 0);
      RelKeysMore(id, {}, 0);
      while todo != {}
        invariant todo !! done && inUse == todo + done
        invariant rels == r0 - RelKeys(id, done * f.delFrom)
        invariant cache.entries == RiseAll(c0, if f.changeStatus then CatTags(done) else {})
        decreases todo
      {
        var c :| c in todo;
        todo := todo - {c};
        if f.changeStatus {
          CatTagsMore(done, c);
          RiseOneMore(c0, CatTags(done), CatTag(Id(c)));
          cache.Raise(CatTag(Id(c)));
        }
        if c in f.delFrom {
          assert (done + {c}) * f.delFrom == done * f.delFrom + {c};
          RelKeysMore(id, done * f.delFrom, c);
          rels := rels - {(id, c)};
        } else {
          assert (done + {c}) * f.delFrom == done * f.delFrom;
        }
        done := done + {c};
      }
      assert done == inUse;
    }

    // ----- comments

    method RecountComments(p: nat)
      modifies this`posts
      ensures Tables() == Recount(old(Tables()), p)
    {
      if p in posts {
        var own := CommentsOf(comments, p);
        posts := posts[p := posts[p].(commentCount := |own|)];
      }
    }

    method Postback(id: nat, send: bool, row: Comment, cid: nat)
      modifies this`posts, this`comments, cache
      ensures St() == AfterPostback(old(St()), id, send, row, cid)
    {
      if id !in posts {
        return;
      }
      if !posts[id].isOpen {
        return;
      }
      if send {
        comments := comments[cid := row.(postId := id)];
        RecountComments(id);
        cache.Raise(PostTag(Id(id)));
        cache.Raise(AllComments);
        TwoRaised(old(cache.entries), PostTag(Id(id)), AllComments);
      }
    }

    lemma TwoRaised(c: Cache, a: Tag, b: Tag)
      ensures Rise(Rise(c, a), b) == RiseAll(c, {a, b})
    {
    }

    method SaveComment(cid: nat, erase: bool, author: string, email: string, url: string, content: string)
      modifies this`posts, this`comments, cache
      ensures St() == AfterSaveComment(old(St()), cid, erase, author, email, url, content)
    {
      if cid !in comments {
        return;
      }
      var p := comments[cid].postId;
      if erase {
        comments := comments - {cid};
        RecountComments(p);
      } else {
        comments := comments[cid := comments[cid].(author := author, email := email, url := url, content := content)];
      }
      cache.Raise(PostTag(Id(p)));
      cache.Raise(AllComments);
      TwoRaised(old(cache.entries), PostTag(Id(p)), AllComments);
    }

    // ----- apps/admin/categories.cpp

    method NewCategory(cat: nat, name: string)
      modifies this`cats, cache
      ensures St() == Changed(old(St()), AddCat(old(Tables()), cat, name), {AllCats})
    {
      cats := cats[cat := name];
      cache.Raise(AllCats);
    }

    method RenameCategory(cat: nat, name: string)
      modifies this`cats, cache
      ensures St() == Changed(old(St()), RenameCat(old(Tables()), cat, name), {AllCats, CatTag(Id(cat))})
    {
      if cat in cats {
        cats := cats[cat := name];
      }
      cache.Raise(AllCats);
      cache.Raise(CatTag(Id(cat)));
      TwoRaised(old(cache.entries), AllCats, CatTag(Id(cat)));
    }

    method RemoveCategory(cat: nat, cascade: bool)
      modifies this`cats, this`rels, cache
      ensures St() == AfterRemoveCategory(old(St()), cat, cascade)
    {
      var inUse := exists r :: r in rels && r.1 == cat;
      if inUse {
        if !cascade {
          return;
        }
        rels := map r | r in rels && r.1 != cat :: rels[r];
      } else {
        assert (map r | r in rels && r.1 != cat :: rels[r]) == rels;
      }
      cats := cats - {cat};
      cache.Raise(AllCats);
      cache.Raise(CatTag(Id(cat)));
      TwoRaised(old(cache.entries), AllCats, CatTag(Id(cat)));
    }

    // ----- apps/admin/page.cpp

    method SavePage(id: nat, title: string, content: string, remove: bool, changeStatus: bool, newId: nat)
      modifies this`pages, cache
      ensures St() == AfterSavePage(old(St()), id, title, content, remove, changeStatus, newId)
    {
      ghost var c0 := cache.entries;
      RiseOneMore(c0, {}, AllPages);
      if id == 0 {
        if remove {
          return;
        }
        pages := pages[newId := StaticPage(title, content, changeStatus)];
        if changeStatus {
          cache.Raise(AllPages);
          assert {} + {AllPages} == {AllPages};
        }
        return;
      }
      if id !in pages {
        return;
      }
      var isOpen := pages[id].isOpen;
      TwoRaised(c0, PageTag(Id(id)), AllPages);
      if remove {
        pages := pages - {id};
        if isOpen {
          cache.Raise(PageTag(Id(id)));
          cache.Raise(AllPages);
        }
        return;
      }
      var openStatus := if changeStatus then !isOpen else isOpen;
      pages := pages[id := StaticPage(title, content, openStatus)];
      if openStatus || changeStatus {
        cache.Raise(PageTag(Id(id)));
        cache.Raise(AllPages);
      }
    }

    // ----- apps/basic_master.cpp, apps/blog/master.cpp and the skins

    /** The texts of the blog, which every page loads. */
    method Prepare() returns (texts: Info)
      modifies cache
      ensures (cache.Abs(), texts) == LoadInfo(Tables(), old(cache.Abs()))
    {
      var hit, v := cache.Fetch(Options);
      if hit {
        return if v.Settings? then v.info else info;
      }
      cache.Store(Options, Settings(info), {});
      return info;
    }

    /** The sidebar from the cache, or from the tables with its triggers recorded. */
    method Sidebar(rows: seq<PageLink>) returns (links: seq<PageLink>)
      modifies cache
      ensures (cache.Abs(), links) == LoadSidebar(Tables(), old(cache.Abs()), rows)
      ensures cache.recorders == Recording(old(cache.recorders), SideRecorded(Tables(), old(cache.entries)))
    {
      ghost var s0, r0 := cache.Abs(), cache.recorders;
      var hit, v := cache.Fetch(SidebarInfo);
      if hit {
        return if v.Sidebar? then v.links else [];
      }
      cache.Record();
      SidebarTriggers();
      RecordingInner(r0, SideTriggers(Tables()));
      var ts := cache.Detach();
      assert cache.recorders == Recording(r0, ts) && ts == SideTriggers(Tables());
      assert cache.Abs() == s0.AddTriggers(ts);
      links := rows;
      cache.Store(SidebarInfo, Value.Sidebar(rows), ts);
      RecordingMore(r0, ts, ts + {SidebarInfo});
      assert ts + (ts + {SidebarInfo}) == ts + {SidebarInfo};
    }

    method SidebarTriggers()
      modifies cache`triggers, cache`recorders
      ensures cache.triggers == old(cache.triggers) + SideTriggers(Tables())
      ensures cache.recorders == Recording(old(cache.recorders), SideTriggers(Tables()))
    {
      ghost var r0 := cache.recorders;
      cache.AddTrigger(AllPages);
      AddCategoryTriggers();
      RecordingMore(r0, {AllPages}, CatTags(cats.Keys));
      cache.AddTrigger(AllCats);
      RecordingMore(r0, {AllPages} + CatTags(cats.Keys), {AllCats});
      cache.AddTrigger(GeneralInfo);
      RecordingMore(r0, {AllPages} + CatTags(cats.Keys) + {AllCats}, {GeneralInfo});
      assert {AllPages} + CatTags(cats.Keys) + {AllCats} + {GeneralInfo} == SideTriggers(Tables());
    }

    method AddCategoryTriggers()
      modifies cache`triggers, cache`recorders
      ensures cache.triggers == old(cache.triggers) + CatTags(cats.Keys)
      ensures cache.recorders == Recording(old(cache.recorders), CatTags(cats.Keys))
    {
      ghost var done: set<nat> := {};
      var todo := cats.Keys;
      CatTagsMore({}, 0);
      RecordingMore(cache.recorders, {}, {});
      while todo != {}
        invariant todo !! done && cats.Keys == todo + done
        invariant cache.triggers == old(cache.triggers) + CatTags(done)
        invariant cache.recorders == Recording(old(cache.recorders), CatTags(done))
        decreases todo
      {
        var c :| c in todo;
        todo := todo - {c};
        CatTagsMore(done, c);
        cache.AddTrigger(CatTag(Id(c)));
        RecordingMore(old(cache.recorders), CatTags(done), {CatTag(Id(c))});
        done := done + {c};
      }
      assert done == cats.Keys;
    }

    /** The texts of the blog and the frame of the sidebar, recorded while it is made. */
    method MakeChrome(rows: seq<PageLink>) returns (chrome: Chrome)
      modifies cache
      ensures (cache.Abs(), chrome) == Surround(Tables(), old(cache.Abs()), rows)
    {
      var texts := Prepare();
      ghost var c1, r1 := cache.entries, cache.recorders;
      var hit, v := cache.Fetch(SidebarFrame);
      if hit {
        return if v.SideFrame? then Chrome(texts, v.links, v.copyright) else Chrome(texts, [], "");
      }
      cache.Record();
      var links := Sidebar(rows);
      cache.AddTrigger(Options);
      RecordingMore(r1 + [{}], SideRecorded(Tables(), c1), {Options});
      RecordingInner(r1, SideRecorded(Tables(), c1) + {Options});
      var ts := cache.Detach();
      cache.Store(SidebarFrame, SideFrame(links, texts.copyright), ts);
      return Chrome(texts, links, texts.copyright);
    }

    // ----- display of posts and pages

    method ViewPost(sid: string, rows: seq<CommentView>, side: seq<PageLink>)
      requires IsSid(sid)
      modifies cache
      ensures St() == AfterViewPost(old(St()), sid, rows, side)
    {
      var hit := cache.HasPage(PostTag(sid));
      if hit {
        return;
      }
      var id := Atoi(sid);
      if id !in posts {
        return;
      }
      var p := posts[id];
      if !p.isOpen {
        return;
      }
      cache.Begin();
      var chrome := MakeChrome(side);
      cache.StorePage(PostTag(sid), PostPage(PostView(p.title, p.abstract_, p.content, p.publish, rows), chrome));
    }

    method ViewPage(sid: string, side: seq<PageLink>)
      requires IsSid(sid)
      modifies cache
      ensures St() == AfterViewPage(old(St()), sid, side)
    {
      var hit := cache.HasPage(PageTag(sid));
      if hit {
        return;
      }
      var id := Atoi(sid);
      if id !in pages || !pages[id].isOpen {
        return;
      }
      cache.Begin();
      var chrome := MakeChrome(side);
      cache.StorePage(PageTag(sid), StaticView(pages[id].title, pages[id].content, chrome));
    }

    // ----- apps/feed/feed.cpp

    method ViewComments(newest: seq<CommentItem>)
      modifies cache
      ensures St() == AfterViewComments(old(St()), newest)
    {
      var hit := cache.HasPage(AllComments);
      if hit {
        return;
      }
      cache.Begin();
      var texts := Prepare();
      cache.StorePage(AllComments, CommentFeed(newest, texts));
    }

    /** The loop over the rows of a feed: an item and a trigger for each post. */
    method FeedRows(ids: seq<nat>) returns (items: seq<FeedItem>)
      modifies cache`triggers, cache`recorders
      ensures items == FedAll(Tables(), ids)
      ensures cache.triggers == old(cache.triggers) + PostTags(ids)
    {
      items := [];
      for i := 0 to |ids|
        invariant items == FedAll(Tables(), ids)[..i]
        invariant cache.triggers == old(cache.triggers) + PostTags(ids[..i])
      {
        PostTagsMore(ids, i);
        items := items + [Fed(Db(posts, cats, rels, comments, pages, info), ids[i])];
        cache.AddTrigger(PostTag(Id(ids[i])));
      }
      assert ids[..|ids|] == ids;
    }

    method ViewRss(ranking: seq<nat>)
      modifies cache
      ensures St() == AfterViewRss(old(St()), ranking)
    {
      var hit := cache.HasPage(RssPosts);
      if hit {
        return;
      }
      cache.Begin();
      cache.AddTrigger(CatTag(Id(0)));
      var items := FeedRows(Take(ranking, 0, 10));
      assert {} + {CatTag(Id(0))} == {CatTag(Id(0))};
      var texts := Prepare();
      cache.StorePage(RssPosts, Feed(items, texts));
    }

    method ViewRssCategory(sid: string, ranking: seq<nat>)
      requires IsSid(sid)
      modifies cache
      ensures St() == AfterViewRssCategory(old(St()), sid, ranking)
    {
      var hit := cache.HasPage(RssCat(sid));
      if hit {
        return;
      }
      cache.Begin();
      cache.AddTrigger(CatTag(sid));
      if Atoi(sid) !in cats {
        return;
      }
      var items := FeedRows(Take(ranking, 0, 10));
      assert {} + {CatTag(sid)} == {CatTag(sid)};
      var texts := Prepare();
      cache.StorePage(RssCat(sid), Feed(items, texts));
    }

    // ----- apps/blog/summary.cpp

    method ListingRows(ids: seq<nat>) returns (items: seq<Item>)
      modifies cache`triggers, cache`recorders
      ensures items == ListedAll(Tables(), ids)
      ensures cache.triggers == old(cache.triggers) + PostTags(ids)
    {
      items := [];
      for i := 0 to |ids|
        invariant items == ListedAll(Tables(), ids)[..i]
        invariant cache.triggers == old(cache.triggers) + PostTags(ids[..i])
      {
        PostTagsMore(ids, i);
        items := items + [Listed(Db(posts, cats, rels, comments, pages, info), ids[i])];
        cache.AddTrigger(PostTag(Id(ids[i])));
      }
      assert ids[..|ids|] == ids;
    }

    method ViewSummary(cat: nat, page: nat, q: string, ranking: seq<nat>, side: seq<PageLink>) returns (reply: Reply)
      modifies cache
      ensures St() == AfterViewSummary(old(St()), cat, page, q, ranking, side)
      ensures reply == SummaryReply(old(St()), cat, page, q)
    {
      cache.Begin();
      if cat > 0 {
        var hit, max := cache.Fetch(MaxCatId);
        if hit {
          if BeyondMax(max, cat) {
            return Refused;
          }
        } else {
          cache.Store(MaxCatId, Frame(MaxText(cats)), {AllCats});
        }
      }
      reply := BuildSummary(cat, page, q, ranking, side);
    }

    method BuildSummary(cat: nat, page: nat, q: string, ranking: seq<nat>, side: seq<PageLink>) returns (reply: Reply)
      modifies cache
      ensures cache.entries == SummaryCategory(Tables(), old(cache.Abs()), cat, page, q, ranking, side)
      ensures reply == CategoryReply(Tables(), old(cache.Abs()), cat, page, q)
    {
      var hit := cache.HasPage(SummaryTag(cat, page, q));
      if hit {
        return FromCache;
      }
      cache.AddTrigger(CatTag(Id(cat)));
      if cat != 0 {
        var name := FetchName(cat);
        if name == "" {
          return Refused;
        }
      }
      reply := BuildPage(cat, page, q, ranking, side);
    }

    method FetchName(cat: nat) returns (name: string)
      modifies cache
      ensures (cache.Abs(), name) == CategoryName(Tables(), old(cache.Abs()), cat)
    {
      var hit, v := cache.Fetch(CatName(cat));
      if hit {
        return if v.Frame? then v.text else "";
      }
      name := if cat in cats then cats[cat] else "";
      cache.Store(CatName(cat), Frame(name), {CatTag(Id(cat))});
    }

    method FetchCount(cat: nat, q: string) returns (n: nat)
      modifies cache
      ensures (cache.Abs(), n) == RecordCount(Tables(), old(cache.Abs()), cat, q)
    {
      var hit, v := cache.Fetch(CatCount(cat, Pattern(q)));
      if hit {
        return if v.Count? then v.n else 0;
      }
      n := |ListedRows(Db(posts, cats, rels, comments, pages, info), cat, q).Keys|;
      cache.Store(CatCount(cat, Pattern(q)), Count(n), {CatTag(Id(cat))});
    }

    method BuildPage(cat: nat, page: nat, q: string, ranking: seq<nat>, side: seq<PageLink>) returns (reply: Reply)
      modifies cache
      ensures cache.entries == SummaryBuilt(Tables(), old(cache.Abs()), cat, page, q, ranking, side)
      ensures reply == BuiltReply(Tables(), old(cache.Abs()), cat, page, q)
    {
      var n := FetchCount(cat, q);
      var pager := new P.Pager(n, 10, page);
      pager.CalcPages();
      if pager.curPage != page {
        return Redirect(pager.curPage);
      }
      var ids := Take(ranking, page * 10, 10);
      var items := ListingRows(ids);
      var chrome := MakeChrome(side);
      cache.StorePage(SummaryTag(cat, page, q), Listing(items, chrome));
      return Fresh;
    }

    // ----- administration pages

    method ShowAdmin()
      modifies cache
      ensures St() == AfterShowAdmin(old(St()))
    {
      cache.Begin();
      var texts := Prepare();
    }

    method SaveOptions(texts: Info)
      modifies this`info, cache
      ensures St() == AfterShowAdmin(Changed(old(St()), old(Tables()).(info := texts), {Options}))
    {
      info := texts;
      RiseOneMore(cache.entries, {}, Options);
      cache.Raise(Options);
      assert {} + {Options} == {Options};
      ShowAdmin();
    }

    /** A POST is accepted whether the blog has been configured or not. */
    method Configure(title: string, description: string, contact: string)
      modifies this`info
      ensures St() == AfterConfigure(old(St()), title, description, contact)
    {
      info := info.(title := title, description := description, contact := contact);
    }

    method ClearCache()
      modifies cache
      ensures St() == AfterShowAdmin(old(St()).(cache := map[]))
    {
      cache.Clear();
      ShowAdmin();
    }

    // ----- apps/basic_master.cpp, upgrade

    /** Bring the tables to version 3, which is supported from version 2 on. */
    method Upgrade(current: nat) returns (ok: bool)
      modifies this`rels, this`dbVersion
      ensures ok <==> 2 <= current <= 3
      ensures Tables() == if current == 2 then Upgrade23(old(Tables())) else old(Tables())
      ensures current == 2 ==> dbVersion == 3
    {
      var ver := current;
      if ver > 3 || ver < 2 {
        return false;
      }
      while ver < 3
        invariant current <= ver <= 3
        invariant ver == current ==> rels == old(rels)
        invariant ver > current ==> rels == Upgrade23(old(Tables())).rels && dbVersion == 3
      {
        rels := map r | r in rels :: if r.0 in posts then rels[r].(isOpen := posts[r.0].isOpen) else rels[r];
        dbVersion := 3;
        ver := ver + 1;
      }
      return true;
    }

    // ----- dispatch

    method Handle(r: Request)
      modifies this, cache
      ensures St() == Step(old(St()), r)
    {
      if IsView(r) {
        HandleView(r);
      } else {
        HandleChange(r);
      }
    }

    method HandleChange(r: Request)
      requires !IsView(r)
      modifies this, cache
      ensures St() == Step(old(St()), r)
    {
      hide Changed, AfterSavePost, AfterPostback, AfterSaveComment, AfterRemoveCategory, AfterSavePage, AfterShowAdmin;
      match r
      case SavePost(id, f, now, newId) => SavePost(id, f, now, newId);
      case Postback(id, send, row, cid) => Postback(id, send, row, cid);
      case SaveComment(cid, erase, author, email, url, content) => SaveComment(cid, erase, author, email, url, content);
      case NewCategory(cat, name) => NewCategory(cat, name);
      case RenameCategory(cat, name) => RenameCategory(cat, name);
      case RemoveCategory(cat, cascade) => RemoveCategory(cat, cascade);
      case SavePage(id, title, content, remove, changeStatus, newId) =>
        SavePage(id, title, content, remove, changeStatus, newId);
      case SaveOptions(texts) => SaveOptions(texts);
      case Configure(title, description, contact) => Configure(title, description, contact);
      case ClearCache => ClearCache();
      case NewSession => cache.Clear();
    }

    method HandleView(r: Request)
      requires IsView(r)
      modifies cache
      ensures St() == Step(old(St()), r)
    {
      if r.ViewComments? || r.ViewRss? || r.ViewRssCategory? || r.ShowAdmin? {
        HandleFeed(r);
      } else {
        HandlePage(r);
      }
    }

    method HandlePage(r: Request)
      requires r.ViewPost? || r.ViewPage? || r.ViewSummary? || r.ShowPage?
      modifies cache
      ensures St() == Step(old(St()), r)
    {
      hide AfterViewPost, AfterViewPage, AfterViewSummary, SummaryReply, Surround, IsSid, Rise, RiseAll;
      match r
      case ViewPost(sid, rows, side) => if IsSid(sid) { ViewPost(sid, rows, side); }
      case ViewPage(sid, side) => if IsSid(sid) { ViewPage(sid, side); }
      case ViewSummary(cat, page, q, ranking, side) => var reply := ViewSummary(cat, page, q, ranking, side);
      case ShowPage(side) =>
        cache.Begin();
        var chrome := MakeChrome(side);
    }

    method HandleFeed(r: Request)
      requires r.ViewComments? || r.ViewRss? || r.ViewRssCategory? || r.ShowAdmin?
      modifies cache
      ensures St() == Step(old(St()), r)
    {
      hide AfterViewComments, AfterViewRss, AfterViewRssCategory, AfterShowAdmin, IsSid, Rise, RiseAll;
      match r
      case ViewComments(newest) => ViewComments(newest);
      case ViewRss(ranking) => ViewRss(ranking);
      case ViewRssCategory(sid, ranking) => if IsSid(sid) { ViewRssCategory(sid, ranking); }
      case ShowAdmin => ShowAdmin();
    }

    /** Serve any sequence of requests: the state machine's run, so tables and cache are right. */
    method Serve(rs: seq<Request>)
      requires Ok(St()) && AllAllowed(St(), rs)
      modifies this, cache
      ensures St() == Run(old(St()), rs) && Ok(St())
    {
      for i := 0 to |rs|
        invariant St() == Run(old(St()), rs[..i])
      {
        Handle(rs[i]);
        assert rs[..i + 1][..i] == rs[..i];
      }
      assert rs[..|rs|] == rs;
      RunOk(old(St()), rs);
    }
  }
}
