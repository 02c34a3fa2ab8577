/** The `[tex]` scanner of apps/basic_master.cpp.  Running LaTeX and HTML escaping are given
    functions; the former yields an empty name when it fails. */
module LatexFilter {
  import opened Text

  const OPEN: string := "[tex]"
  const CLOSE: string := "[/tex]"

  datatype Filter = Filter(convert: string -> string, escape: string -> string) {
    /** What replaces a formula. */
    function Render(tex: string): string {
      if convert(tex) == "" then escape(tex)
      else "<img src='" + convert(tex) + "' alt='" + escape(tex) + "' align='absmiddle' />"
    }
  }

  /** A text cut into plain parts and tagged formulas. */
  datatype Doc = End(text: string) | Tagged(text: string, tex: string, rest: Doc) {
    function Source(): string {
      match this
      case End(t) => t
      case Tagged(t, x, r) => t + OPEN + x + CLOSE + r.Source()
    }

    function Rendered(f: Filter): string {
      match this
      case End(t) => t
      case Tagged(t, x, r) => t + f.Render(x) + r.Rendered(f)
    }

    /** Each formula is delimited by the first opening and the first closing tag of what is
        left, and the last part has no such pair. */
    predicate WellFormed() {
      match this
      case End(t) => !HasPair(t)
      case Tagged(t, x, r) =>
        && Find(Source(), OPEN, 0) == |t|
        && Find(Source(), CLOSE, 0) == |t| + |OPEN| + |x|
        && r.WellFormed()
    }
  }

  /** The first opening tag comes before the first closing tag. */
  predicate HasPair(s: string) {
    var p1, p2 := Find(s, OPEN, 0), Find(s, CLOSE, 0);
    p1 != -1 && p2 != -1 && p2 > p1
  }

  /** A closing tag after an opening tag does not overlap it. */
  lemma TagsApart(s: string, p1: int, p2: int)
    requires MatchAt(s, OPEN, p1) && MatchAt(s, CLOSE, p2) && p2 > p1
    ensures p2 >= p1 + |OPEN|
  {
    assert s[p2] == s[p2..p2 + |CLOSE|][0] == '[';
    var tag := s[p1..p1 + |OPEN|];
    assert s[p1 + 1] == tag[1] == 't' && s[p1 + 2] == tag[2] == 'e' && s[p1 + 3] == tag[3] == 'x'
        && s[p1 + 4] == tag[4] == ']';
  }

  lemma FiveParts(s: string, i: nat, j: nat, k: nat, l: nat)
    requires i <= j <= k <= l <= |s|
    ensures s == s[..i] + s[i..j] + s[j..k] + s[k..l] + s[l..]
  {
  }

  lemma SliceOfRest(s: string, start: nat, i: nat, j: nat)
    requires i <= j && start + j <= |s|
    ensures s[start..][i..j] == s[start + i..start + j] && s[start..][j..] == s[start + j..]
  {
  }

  lemma PairAt(s: string)
    requires HasPair(s)
    ensures var p1, p2 := Find(s, OPEN, 0), Find(s, CLOSE, 0);
            && p1 + |OPEN| <= p2 && p2 + |CLOSE| <= |s|
            && s == s[..p1] + OPEN + s[p1 + |OPEN|..p2] + CLOSE + s[p2 + |CLOSE|..]
  {
    var p1, p2 := Find(s, OPEN, 0), Find(s, CLOSE, 0);
    FindFirst(s, OPEN, 0);
    FindFirst(s, CLOSE, 0);
    TagsApart(s, p1, p2);
    FiveParts(s, p1, p1 + |OPEN|, p2, p2 + |CLOSE|);
  }

  /** Cut a text at its tag pairs. */
  function Cut(s: string): Doc
    decreases |s|
  {
    if HasPair(s) then
      PairAt(s);
      var p1, p2 := Find(s, OPEN, 0), Find(s, CLOSE, 0);
      Tagged(s[..p1], s[p1 + |OPEN|..p2], Cut(s[p2 + |CLOSE|..]))
    else End(s)
  }

  /** The first opening tag of the text is followed by the first closing tag. */
  lemma HasPairWhen(s: string)
    ensures HasPair(s) <==>
            exists i, j :: i < j && FirstMatch(s, "[tex]", i) && FirstMatch(s, "[/tex]", j)
  {
    var p1, p2 := Find(s, OPEN, 0), Find(s, CLOSE, 0);
    FindFirst(s, OPEN, 0);
    FindFirst(s, CLOSE, 0);
    if HasPair(s) {
      assert FirstMatch(s, OPEN, p1) && FirstMatch(s, CLOSE, p2);
    }
  }

  ghost predicate FirstMatch(s: string, pat: string, i: int) {
    MatchAt(s, pat, i) && forall k :: MatchAt(s, pat, k) ==> i <= k
  }

  /** What the rendering of a cut text is, without the cut: text without a pair stays as it is;
      otherwise the text before the first pair, the rendered formula, and the rendering of the rest. */
  lemma RenderedIs(s: string, f: Filter)
    ensures !HasPair(s) ==> Cut(s).Rendered(f) == s
    ensures HasPair(s) ==>
              var p1, p2 := Find(s, "[tex]", 0), Find(s, "[/tex]", 0);
              && 0 <= p1 && p1 + 5 <= p2 && p2 + 6 <= |s|
              && Cut(s).Rendered(f) == s[..p1] + f.Render(s[p1 + 5..p2]) + Cut(s[p2 + 6..]).Rendered(f)
  {
    hide Find;
    if HasPair(s) {
      PairAt(s);
    }
  }

  /** A formula becomes its escaped text exactly when there is no image for it, and else an image
      element with the name of the file as source and the escaped formula as alternative text. */
  lemma RenderIs(f: Filter, tex: string)
    ensures f.convert(tex) == "" ==> f.Render(tex) == f.escape(tex)
    ensures f.convert(tex) != "" ==>
              f.Render(tex) == "<img src='" + f.convert(tex) + "' alt='" + f.escape(tex) + "' align='absmiddle' />"
  {
  }

  /** Nothing is lost: the parts and tags, in order, are the text. */
  lemma {:induction false} CutSource(s: string)
    ensures Cut(s).Source() == s && Cut(s).WellFormed()
    decreases |s|
  {
    hide Find;
    if HasPair(s) {
      PairAt(s);
      CutSource(s[Find(s, CLOSE, 0) + |CLOSE|..]);
    }
  }

  /** There is only one way to cut a text. */
  lemma {:induction false} CutUnique(d: Doc)
    requires d.WellFormed()
    ensures Cut(d.Source()) == d
    decreases d
  {
    hide Find;
    if d.Tagged? {
      var s := d.Source();
      CutUnique(d.rest);
      PairAt(s);
      var n := |d.text| + |OPEN|;
      assert s[..|d.text|] == d.text;
      assert s[n..n + |d.tex|] == d.tex;
      assert s[n + |d.tex| + |CLOSE|..] == d.rest.Source();
    }
  }

  /** One turn of the scanner: the plain part, the rendered formula and what is left. */
  lemma ScanStep(input: string, start: nat)
    requires start <= |input|
    requires var p1, p2 := Find(input, OPEN, start), Find(input, CLOSE, start); p1 != -1 && p2 != -1 && p2 > p1
    ensures var p1, p2 := Find(input, OPEN, start), Find(input, CLOSE, start);
            && start <= p1 && p1 + 5 <= p2 && p2 + 6 <= |input|
            && Cut(input[start..]) == Tagged(input[start..p1], input[p1 + 5..p2], Cut(input[p2 + 6..]))
  {
    hide Find;
    var s := input[start..];
    FindFrom(input, OPEN, start);
    FindFrom(input, CLOSE, start);
    PairAt(s);
    var p1, p2 := Find(s, OPEN, 0), Find(s, CLOSE, 0);
    SliceOfRest(input, start, 0, p1);
    SliceOfRest(input, start, p1 + 5, p2);
    SliceOfRest(input, start, p2, p2 + 6);
  }

  /** The scanner: formulas are rendered in place, everything else is copied.  Without a
      configured filter the text is returned as it is. */
  method Apply(input: string, enabled: bool, f: Filter) returns (out: string)
    ensures out == if enabled then Cut(input).Rendered(f) else input
    ensures !enabled || !HasPair(input) ==> out == input
    ensures enabled && HasPair(input) ==>
              var p1, p2 := Find(input, "[tex]", 0), Find(input, "[/tex]", 0);
              && 0 <= p1 && p1 + 5 <= p2 && p2 + 6 <= |input|
              && out == input[..p1] + f.Render(input[p1 + 5..p2]) + Cut(input[p2 + 6..]).Rendered(f)
  {
    RenderedIs(input, f);
    hide Cut;
    hide Find;
    if !enabled {
      return input;
    }
    out := Scan(input, f);
  }

  /** The loop of the scanner, and the text after the last pair. */
  method Scan(input: string, f: Filter) returns (out: string)
    ensures out == Cut(input).Rendered(f)
  {
    hide Cut;
    hide Find;
    out := "";
    var start: nat := 0;
    var p1, p2 := Find(input, OPEN, start), Find(input, CLOSE, start);
    assert input[0..] == input;
    ghost var all, left := Cut(input).Rendered(f), Cut(input);
    while p1 != -1 && p2 != -1 && p2 > p1
      invariant start <= |input| && p1 == Find(input, OPEN, start) && p2 == Find(input, CLOSE, start)
      invariant left == Cut(input[start..]) && all == out + left.Rendered(f)
      decreases |input| - start
    {
      ScanStep(input, start);
      ghost var rest := Cut(input[p2 + 6..]);
      out := AppendPart(out, input[start..p1], input[p1 + 5..p2], f, left, rest, all);
      start, left := p2 + 6, rest;
      p1, p2 := Find(input, OPEN, start), Find(input, CLOSE, start);
    }
    ScanEnd(input, start);
    out := out + input[start..];
  }

  lemma ScanEnd(input: string, start: nat)
    requires start <= |input|
    requires var p1, p2 := Find(input, OPEN, start), Find(input, CLOSE, start); !(p1 != -1 && p2 != -1 && p2 > p1)
    ensures Cut(input[start..]) == End(input[start..])
  {
    FindFrom(input, OPEN, start);
    FindFrom(input, CLOSE, start);
  }

  lemma ThreeParts(a: string, b: string, c: string, d: string)
    ensures a + (b + c + d) == ((a + b) + c) + d
  {
  }

  /** Append a plain part and a rendered formula; `left` is what remained, `rest` what remains now. */
  method AppendPart(prefix: string, plain: string, tex: string, f: Filter, ghost left: Doc, ghost rest: Doc,
                    ghost all: string)
    returns (out: string)
    requires left == Tagged(plain, tex, rest) && all == prefix + left.Rendered(f)
    ensures out == prefix + plain + f.Render(tex)
    ensures all == out + rest.Rendered(f)
  {
    ThreeParts(prefix, plain, f.Render(tex), rest.Rendered(f));
    out := prefix + plain;
    var wwwfile := f.convert(tex);
    var html := f.escape(tex);
    if wwwfile == "" {
      out := out + html;
    } else {
      out := out + "<img src='";
      out := out + wwwfile;
      out := out + "' alt='";
      out := out + html;
      out := out + "' align='absmiddle' />";
    }
  }
}
