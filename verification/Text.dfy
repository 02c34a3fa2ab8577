/** String search and replacement and the LIKE escaping of data/basic_master.cpp. */
module Text {

  predicate MatchAt(s: string, pat: string, i: int) {
    0 <= i && i + |pat| <= |s| && s[i..i + |pat|] == pat
  }

  /** `std::string::find`: the first match at or after `from`, or -1 for npos. */
  function Find(s: string, pat: string, from: nat): (r: int)
    ensures r == -1 || (from <= r && r + |pat| <= |s|)
    decreases |s| - from
  {
    if from + |pat| > |s| then -1
    else if MatchAt(s, pat, from) then from
    else Find(s, pat, from + 1)
  }

  lemma {:induction false} FindFirst(s: string, pat: string, from: nat)
    ensures var r := Find(s, pat, from);
            && (r != -1 ==> from <= r && MatchAt(s, pat, r))
            && (forall i :: from <= i && MatchAt(s, pat, i) ==> r != -1 && r <= i)
    decreases |s| - from
  {
    if from + |pat| <= |s| && !MatchAt(s, pat, from) {
      FindFirst(s, pat, from + 1);
    }
  }

  predicate Contains(s: string, pat: string) {
    Find(s, pat, 0) != -1
  }

  lemma {:induction false} FindShift(a: string, s: string, pat: string, from: nat)
    ensures Find(a + s, pat, |a| + from) == if Find(s, pat, from) == -1 then -1 else |a| + Find(s, pat, from)
    decreases |s| - from
  {
    if from + |pat| <= |s| {
      assert (a + s)[|a| + from..|a| + from + |pat|] == s[from..from + |pat|];
      if !MatchAt(s, pat, from) {
        FindShift(a, s, pat, from + 1);
      }
    }
  }

  lemma FindFrom(s: string, pat: string, from: nat)
    requires from <= |s|
    ensures Find(s, pat, from) == if Find(s[from..], pat, 0) == -1 then -1 else from + Find(s[from..], pat, 0)
  {
    assert s == s[..from] + s[from..];
    FindShift(s[..from], s[from..], pat, 0);
  }

  // ----- replacement

  /** Leftmost non-overlapping replacement of a non-empty `src`. */
  function ReplaceAll(s: string, src: string, dst: string): string
    requires src != []
    decreases |s|
  {
    var p := Find(s, src, 0);
    if p == -1 then s else s[..p] + dst + ReplaceAll(s[p + |src|..], src, dst)
  }

  /** `std::string::replace`. */
  function Splice(s: string, pos: nat, len: nat, dst: string): string
    requires pos + len <= |s|
  {
    s[..pos] + dst + s[pos + len..]
  }

  /** Text before `from` is final and the rest is still to be replaced. */
  ghost predicate Progress(str: string, src: string, dst: string, out: string, from: nat) {
    src != [] && from <= |out| && ReplaceAll(str, src, dst) == out[..from] + ReplaceAll(out[from..], src, dst)
  }

  /** The in-place loop of `str_replace`: it never looks again at text it has put in. */
  method StrReplace(str: string, src: string, dst: string) returns (out: string)
    requires src != []
    ensures out == ReplaceAll(str, src, dst)
  {
    out := str;
    var from: nat := 0;
    assert str[..0] == [] && str[0..] == str;
    var pos := Find(out, src, from);
    while pos != -1
      invariant pos == Find(out, src, from) && Progress(str, src, dst, out, from)
      decreases |out| - from
    {
      ghost var left := |out| - from;
      ReplaceStep(str, src, dst, out, from);
      out := Splice(out, pos, |src|, dst);
      from := pos + |dst|;
      assert |out| - from < left;
      pos := Find(out, src, from);
    }
    ReplaceDone(str, src, dst, out, from);
  }

  lemma ReplaceStep(str: string, src: string, dst: string, out: string, from: nat)
    requires Progress(str, src, dst, out, from) && Find(out, src, from) != -1
    ensures var pos := Find(out, src, from); Progress(str, src, dst, Splice(out, pos, |src|, dst), pos + |dst|)
  {
    var p, tail := ReplaceHead(out[from..], src, dst);
    FindFrom(out, src, from);
    SpliceParts(out, from, p, |src|, dst);
    Regroup(out[..from], out[from..][..p], dst, tail);
  }

  /** The first match, and what becomes of the text after it. */
  lemma ReplaceHead(rest: string, src: string, dst: string) returns (p: int, tail: string)
    requires src != []
    ensures p == Find(rest, src, 0)
    ensures p != -1 ==>
                tail == ReplaceAll(rest[p + |src|..], src, dst) && ReplaceAll(rest, src, dst) == rest[..p] + dst + tail
  {
    p := Find(rest, src, 0);
    tail := if p == -1 then [] else ReplaceAll(rest[p + |src|..], src, dst);
  }

  lemma SpliceParts(s: string, from: nat, p: nat, len: nat, dst: string)
    requires from + p + len <= |s|
    ensures var s' := Splice(s, from + p, len, dst);
            var k := from + p + |dst|;
            && k <= |s'| && s'[..k] == s[..from] + s[from..][..p] + dst
            && s'[k..] == s[from..][p + len..]
  {
  }

  lemma ReplaceDone(str: string, src: string, dst: string, out: string, from: nat)
    requires Progress(str, src, dst, out, from) && Find(out, src, from) == -1
    ensures out == ReplaceAll(str, src, dst)
  {
    FindFrom(out, src, from);
    assert out == out[..from] + out[from..];
  }

  lemma Regroup(a: string, x: string, d: string, y: string)
    ensures a + (x + d + y) == (a + x + d) + y
  {
  }

  // ----- what replacement means

  /** The text between the leftmost non-overlapping matches of `src`. */
  function Pieces(s: string, src: string): (r: seq<string>)
    requires src != []
    ensures |r| > 0
    decreases |s|
  {
    var p := Find(s, src, 0);
    if p == -1 then [s] else [s[..p]] + Pieces(s[p + |src|..], src)
  }

  function Join(pieces: seq<string>, sep: string): string
    requires |pieces| > 0
  {
    if |pieces| == 1 then pieces[0] else pieces[0] + sep + Join(pieces[1..], sep)
  }

  /** Each separator is the first match of what is left of the text at that point. */
  predicate Leftmost(pieces: seq<string>, sep: string)
    requires |pieces| > 0
  {
    if |pieces| == 1 then Find(pieces[0], sep, 0) == -1
    else Find(Join(pieces, sep), sep, 0) == |pieces[0]| && Leftmost(pieces[1..], sep)
  }

  /** Replacement keeps the pieces and exchanges the separators. */
  lemma {:induction false} ReplaceIsJoin(s: string, src: string, dst: string)
    requires src != []
    ensures Join(Pieces(s, src), src) == s && Leftmost(Pieces(s, src), src)
    ensures ReplaceAll(s, src, dst) == Join(Pieces(s, src), dst)
    decreases |s|
  {
    var p := Find(s, src, 0);
    FindFirst(s, src, 0);
    if p != -1 {
      var rest := s[p + |src|..];
      ReplaceIsJoin(rest, src, dst);
      assert Pieces(s, src)[1..] == Pieces(rest, src);
      assert s == s[..p] + src + rest;
    }
  }

  /** No other way of cutting the text has that property. */
  lemma {:induction false} PiecesUnique(pieces: seq<string>, src: string)
    requires |pieces| > 0 && src != [] && Leftmost(pieces, src)
    ensures Pieces(Join(pieces, src), src) == pieces
    decreases |pieces|
  {
    hide Find;
    if |pieces| > 1 {
      var s := Join(pieces, src);
      var rest := Join(pieces[1..], src);
      assert s[..|pieces[0]|] == pieces[0];
      assert s[|pieces[0]| + |src|..] == rest;
      PiecesUnique(pieces[1..], src);
      assert pieces == [pieces[0]] + pieces[1..];
    }
  }

  // ----- LIKE escaping

  const BACKSLASH: char := '\\'

  predicate Special(c: char) {
    c in {BACKSLASH, '_', '|', '%'}
  }

  /** A backslash before every special character, in one pass. */
  function Escape(s: string): string {
    if s == [] then [] else (if Special(s[0]) then [BACKSLASH, s[0]] else [s[0]]) + Escape(s[1..])
  }

  /** Escaping taken back: what follows a backslash stands for itself. */
  function Unescape(s: string): string {
    if s == "" then ""
    else if s[0] == BACKSLASH && |s| > 1 then [s[1]] + Unescape(s[2..])
    else [s[0]] + Unescape(s[1..])
  }

  /** Different texts have different escapings. */
  lemma {:induction false} EscapeRoundTrip(s: string)
    ensures Unescape(Escape(s)) == s
  {
    if s != "" {
      EscapeRoundTrip(s[1..]);
      var e := Escape(s);
      if Special(s[0]) {
        assert e[2..] == Escape(s[1..]);
      } else {
        assert e[1..] == Escape(s[1..]);
      }
    }
  }

  /** The four replacement passes of `mysql_like`. */
  function FourPasses(s: string): string {
    var s1 := ReplaceAll(s, [BACKSLASH], [BACKSLASH, BACKSLASH]);
    var s2 := ReplaceAll(s1, "_", [BACKSLASH, '_']);
    var s3 := ReplaceAll(s2, "|", [BACKSLASH, '|']);
    ReplaceAll(s3, "%", [BACKSLASH, '%'])
  }

  method MysqlLike(str: string) returns (out: string)
    ensures out == Escape(str)
  {
    out := StrReplace(str, [BACKSLASH], [BACKSLASH, BACKSLASH]);
    out := StrReplace(out, "_", [BACKSLASH, '_']);
    out := StrReplace(out, "|", [BACKSLASH, '|']);
    out := StrReplace(out, "%", [BACKSLASH, '%']);
    FourPassesEscape(str);
  }

  lemma FindChar(a: char, t: string, c: char)
    ensures Find([a] + t, [c], 0) ==
            if a == c then 0 else if Find(t, [c], 0) == -1 then -1 else Find(t, [c], 0) + 1
  {
    var s := [a] + t;
    assert s[0..1] == [a];
    if a != c {
      assert !MatchAt(s, [c], 0);
      FindShift([a], t, [c], 0);
    }
  }

  /** Replacing a one-character source works character by character. */
  lemma ReplaceCharOne(a: char, t: string, c: char, dst: string)
    ensures ReplaceAll([a] + t, [c], dst) == (if a == c then dst else [a]) + ReplaceAll(t, [c], dst)
  {
    var s := [a] + t;
    var p := Find(t, [c], 0);
    FindChar(a, t, c);
    if a == c {
      assert s[..0] == [] && s[1..] == t;
    } else if p != -1 {
      var rest := ReplaceAll(t[p + 1..], [c], dst);
      assert s[..p + 1] == [a] + t[..p] && s[p + 2..] == t[p + 1..];
      Regroup([a], t[..p], dst, rest);
    }
  }

  lemma ReplaceCharTwo(a: char, b: char, t: string, c: char, dst: string)
    requires a != c && b != c
    ensures ReplaceAll([a, b] + t, [c], dst) == [a, b] + ReplaceAll(t, [c], dst)
  {
    ReplaceCharOne(b, t, c, dst);
    ReplaceCharOne(a, [b] + t, c, dst);
    assert [a, b] + t == [a] + ([b] + t);
  }

  /** The later passes do not touch the backslashes of the earlier ones. */
  lemma {:induction false} FourPassesEscape(s: string)
    ensures FourPasses(s) == Escape(s)
  {
    var b := [BACKSLASH, BACKSLASH];
    if s == [] {
      assert ReplaceAll(s, [BACKSLASH], b) == [];
    } else {
      var c, t := s[0], s[1..];
      FourPassesEscape(t);
      assert s == [c] + t;
      var t1 := ReplaceAll(t, [BACKSLASH], b);
      var t2 := ReplaceAll(t1, "_", [BACKSLASH, '_']);
      var t3 := ReplaceAll(t2, "|", [BACKSLASH, '|']);
      ReplaceCharOne(c, t, BACKSLASH, b);
      FourPassesOne(c, t1, t2, t3);
    }
  }

  lemma FourPassesOne(c: char, t1: string, t2: string, t3: string)
    requires t2 == ReplaceAll(t1, "_", [BACKSLASH, '_']) && t3 == ReplaceAll(t2, "|", [BACKSLASH, '|'])
    ensures var s1 := (if c == BACKSLASH then [BACKSLASH, BACKSLASH] else [c]) + t1;
            ReplaceAll(ReplaceAll(ReplaceAll(s1, "_", [BACKSLASH, '_']), "|", [BACKSLASH, '|']), "%", [BACKSLASH, '%'])
            == (if Special(c) then [BACKSLASH, c] else [c]) + ReplaceAll(t3, "%", [BACKSLASH, '%'])
  {
    if c == BACKSLASH {
      ReplaceCharTwo(c, c, t1, '_', [BACKSLASH, '_']);
      ReplaceCharTwo(c, c, t2, '|', [BACKSLASH, '|']);
      ReplaceCharTwo(c, c, t3, '%', [BACKSLASH, '%']);
    } else {
      ReplaceCharOne(c, t1, '_', [BACKSLASH, '_']);
      if c == '_' {
        ReplaceCharTwo(BACKSLASH, c, t2, '|', [BACKSLASH, '|']);
        ReplaceCharTwo(BACKSLASH, c, t3, '%', [BACKSLASH, '%']);
      } else {
        ReplaceCharOne(c, t2, '|', [BACKSLASH, '|']);
        if c == '|' {
          ReplaceCharTwo(BACKSLASH, c, t3, '%', [BACKSLASH, '%']);
        } else {
          ReplaceCharOne(c, t3, '%', [BACKSLASH, '%']);
        }
      }
    }
  }

  /** SQL LIKE with backslash as escape character. */
  predicate Like(pattern: string, text: string)
    decreases |pattern| + |text|
  {
    if pattern == [] then text == []
    else if pattern[0] == '%' then
      Like(pattern[1..], text) || (text != [] && Like(pattern, text[1..]))
    else if pattern[0] == '_' then text != [] && Like(pattern[1..], text[1..])
    else if pattern[0] == BACKSLASH && |pattern| > 1 then
      text != [] && text[0] == pattern[1] && Like(pattern[2..], text[1..])
    else text != [] && text[0] == pattern[0] && Like(pattern[1..], text[1..])
  }

  lemma {:induction false} LikeEverything(text: string)
    ensures Like("%", text)
  {
    if text != [] {
      LikeEverything(text[1..]);
    } else {
      assert Like("%"[1..], text);
    }
  }

  /** The escaped query followed by `%` matches the texts that begin with the query. */
  lemma {:induction false} LikePrefix(q: string, text: string)
    ensures Like(Escape(q) + "%", text) <==> q <= text
  {
    if q == [] {
      assert Escape(q) + "%" == "%";
      LikeEverything(text);
    } else {
      var p := Escape(q) + "%";
      var rest := Escape(q[1..]) + "%";
      if text != [] {
        LikePrefix(q[1..], text[1..]);
        assert q <= text <==> q[0] == text[0] && q[1..] <= text[1..];
      }
      if Special(q[0]) {
        assert p == [BACKSLASH, q[0]] + rest;
        assert p[2..] == rest;
      } else {
        assert p == [q[0]] + rest;
        assert p[1..] == rest;
      }
    }
  }

  lemma {:induction false} LikeAnywhere(p: string, text: string)
    ensures Like(['%'] + p, text) <==> exists k :: 0 <= k <= |text| && Like(p, text[k..])
  {
    var pattern := ['%'] + p;
    assert pattern[1..] == p;
    if text != [] {
      LikeAnywhere(p, text[1..]);
      forall k | 0 <= k <= |text[1..]|
        ensures text[1..][k..] == text[k + 1..]
      {
      }
      if Like(p, text) {
        assert text[0..] == text;
      }
      if exists k :: 0 <= k <= |text[1..]| && Like(p, text[1..][k..]) {
        var k :| 0 <= k <= |text[1..]| && Like(p, text[1..][k..]);
        assert Like(p, text[k + 1..]);
      }
      if exists k :: 0 <= k <= |text| && Like(p, text[k..]) {
        var k :| 0 <= k <= |text| && Like(p, text[k..]);
        if k == 0 {
          assert text[0..] == text;
        } else {
          assert text[k..] == text[1..][k - 1..];
        }
      }
    } else {
      assert text[0..] == text;
    }
  }

  /** The pattern built for a search matches exactly the texts that contain the query. */
  lemma SearchMatches(q: string, text: string)
    ensures Like("%" + Escape(q) + "%", text) <==> Contains(text, q)
  {
    var p := Escape(q) + "%";
    assert "%" + Escape(q) + "%" == ['%'] + p;
    LikeAnywhere(p, text);
    FindFirst(text, q, 0);
    forall k | 0 <= k <= |text|
      ensures Like(p, text[k..]) <==> MatchAt(text, q, k)
    {
      LikePrefix(q, text[k..]);
      if MatchAt(text, q, k) {
        assert text[k..][..|q|] == q;
      }
      if q <= text[k..] {
        assert text[k..k + |q|] == text[k..][..|q|];
      }
    }
  }
}
