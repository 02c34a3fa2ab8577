/** The keys and triggers of the blog's page cache.  Both live in one name space of strings;
    this module names them structurally and proves that no two of them share a text. */
module CacheTags {
  import opened FormatNumber

  /** Identifiers taken from a URL are digit strings as typed; those of database rows are numbers. */
  datatype Tag =
    | PostTag(sid: string)
    | PageTag(sid: string)
    | CatTag(sid: string)
    | AllCats
    | AllPages
    | AllComments
    | GeneralInfo
    | SummaryTag(cat: nat, page: nat, q: string)
    | RssPosts
    | RssCat(sid: string)
    | SidebarInfo
    | SidebarFrame
    | Options
    | MaxCatId
    | CatName(id: nat)
    | CatCount(id: nat, pattern: string)

  /** The canonical decimal identifier. */
  function Id(n: nat): string {
    Digits(n)
  }

  function Text(t: Tag): string {
    match t
    case PostTag(sid) => "post_" + sid
    case PageTag(sid) => "page_" + sid
    case CatTag(sid) => "cat_" + sid
    case AllCats => "cats"
    case AllPages => "pages"
    case AllComments => "comments"
    case GeneralInfo => "general_info"
    case SummaryTag(cat, page, q) => "summary_" + (Id(cat) + "_" + (Id(page) + "_" + q))
    case RssPosts => "rss_posts"
    case RssCat(sid) => "rss_" + sid
    case SidebarInfo => "sidebar_info"
    case SidebarFrame => "sidebar"
    case Options => "options"
    case MaxCatId => "max_cat_id"
    case CatName(id) => "cat_name_" + Id(id)
    case CatCount(id, pattern) => "cat_count_" + (Id(id) + (if pattern == "" then "" else "_" + pattern))
  }

  /** The texts under which pages of posts and listings are cached and dropped. */
  lemma TextIs(sid: string, cat: nat, page: nat, q: string)
    ensures Text(PostTag(sid)) == "post_" + sid && Text(PageTag(sid)) == "page_" + sid
    ensures Text(CatTag(sid)) == "cat_" + sid && Text(RssCat(sid)) == "rss_" + sid
    ensures Text(SummaryTag(cat, page, q)) == "summary_" + Digits(cat) + "_" + Digits(page) + "_" + q
  {
    assert "summary_" + Digits(cat) + "_" + Digits(page) + "_" + q
        == "summary_" + (Digits(cat) + "_" + (Digits(page) + "_" + q));
  }

  predicate IsSid(s: string) {
    AllDigits(s) && |s| > 0
  }

  /** URL identifiers match `\d+`. */
  predicate Proper(t: Tag) {
    t.PostTag? || t.PageTag? || t.CatTag? || t.RssCat? ==> IsSid(t.sid)
  }

  /** Which kind of tag a text is, told from a few characters. */
  function Kind(s: string): int {
    if |s| < 4 then 0
    else if s[0] == 'p' then
      if s[1] == 'o' then 1 else if |s| > 4 && s[4] == '_' then 2 else 5
    else if s[0] == 'c' then
      if s[1] == 'o' then 6
      else if s[3] == 's' then 4
      else if |s| < 5 then 0
      else if s[4] == 'n' then 13
      else if s[4] == 'c' then 14
      else 3
    else if s[0] == 'g' then 7
    else if s[0] == 's' then if s[1] == 'u' then 8 else if |s| > 7 then 11 else 15
    else if s[0] == 'o' then 16
    else if s[0] == 'r' then if |s| > 4 && s[4] == 'p' then 9 else 10
    else if s[0] == 'm' then 12
    else 0
  }

  function KindOf(t: Tag): int {
    match t
    case PostTag(_) => 1
    case PageTag(_) => 2
    case CatTag(_) => 3
    case AllCats => 4
    case AllPages => 5
    case AllComments => 6
    case GeneralInfo => 7
    case SummaryTag(_, _, _) => 8
    case RssPosts => 9
    case RssCat(_) => 10
    case SidebarInfo => 11
    case MaxCatId => 12
    case CatName(_) => 13
    case CatCount(_, _) => 14
    case SidebarFrame => 15
    case Options => 16
  }

  lemma KindTells(t: Tag)
    requires Proper(t)
    ensures Kind(Text(t)) == KindOf(t)
  {
  }

  lemma SamePrefix(p: string, a: string, b: string)
    requires p + a == p + b
    ensures a == b
  {
    assert (p + a)[|p|..] == a;
    assert (p + b)[|p|..] == b;
  }

  /** A digit string ends where the first other character begins. */
  lemma DigitsEnd(a: string, x: string, b: string, y: string)
    requires AllDigits(a) && AllDigits(b) && a + x == b + y
    requires (x == "" || !IsDigit(x[0])) && (y == "" || !IsDigit(y[0]))
    ensures a == b && x == y
  {
    var s := a + x;
    assert x != "" ==> s[|a|] == x[0];
    assert y != "" ==> s[|b|] == y[0];
    assert forall i :: 0 <= i < |a| ==> s[i] == a[i];
    assert forall i :: 0 <= i < |b| ==> s[i] == b[i];
    assert a == (a + x)[..|a|] && b == (b + y)[..|b|];
    SamePrefix(a, x, y);
  }

  lemma IdInjective(m: nat, n: nat)
    requires Id(m) == Id(n)
    ensures m == n
  {
    DigitsCanonical(m);
    DigitsCanonical(n);
  }

  /** Summary keys are injective in category, page and query. */
  lemma SummaryInjective(a: Tag, b: Tag)
    requires a.SummaryTag? && b.SummaryTag? && Text(a) == Text(b)
    ensures a == b
  {
    var u, v := "_" + (Id(a.page) + "_" + a.q), "_" + (Id(b.page) + "_" + b.q);
    assert Id(a.cat) + "_" + (Id(a.page) + "_" + a.q) == Id(a.cat) + u;
    assert Id(b.cat) + "_" + (Id(b.page) + "_" + b.q) == Id(b.cat) + v;
    SamePrefix("summary_", Id(a.cat) + u, Id(b.cat) + v);
    DigitsEnd(Id(a.cat), u, Id(b.cat), v);
    IdInjective(a.cat, b.cat);
    SamePrefix("_", Id(a.page) + "_" + a.q, Id(b.page) + "_" + b.q);
    assert Id(a.page) + "_" + a.q == Id(a.page) + ("_" + a.q);
    assert Id(b.page) + "_" + b.q == Id(b.page) + ("_" + b.q);
    DigitsEnd(Id(a.page), "_" + a.q, Id(b.page), "_" + b.q);
    IdInjective(a.page, b.page);
    SamePrefix("_", a.q, b.q);
  }

  lemma CatCountInjective(a: Tag, b: Tag)
    requires a.CatCount? && b.CatCount? && Text(a) == Text(b)
    ensures a == b
  {
    var x := if a.pattern == "" then "" else "_" + a.pattern;
    var y := if b.pattern == "" then "" else "_" + b.pattern;
    SamePrefix("cat_count_", Id(a.id) + x, Id(b.id) + y);
    DigitsEnd(Id(a.id), x, Id(b.id), y);
    IdInjective(a.id, b.id);
    if a.pattern != "" && b.pattern != "" {
      SamePrefix("_", a.pattern, b.pattern);
    }
  }

  /** No two keys or triggers have the same text, whatever their kinds. */
  lemma TextInjective(a: Tag, b: Tag)
    requires Proper(a) && Proper(b) && Text(a) == Text(b)
    ensures a == b
  {
    KindTells(a);
    KindTells(b);
    match a
    case PostTag(sid) => SamePrefix("post_", sid, b.sid);
    case PageTag(sid) => SamePrefix("page_", sid, b.sid);
    case CatTag(sid) => SamePrefix("cat_", sid, b.sid);
    case RssCat(sid) => SamePrefix("rss_", sid, b.sid);
    case SummaryTag(_, _, _) => SummaryInjective(a, b);
    case CatName(id) =>
      SamePrefix("cat_name_", Id(id), Id(b.id));
      IdInjective(id, b.id);
    case CatCount(_, _) => CatCountInjective(a, b);
    case _ =>
  }
}
