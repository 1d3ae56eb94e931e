/** The SEO helpers of the site's library (`src/lib/seo.js`): meta-description
    truncation, keyword extraction by word frequency, field validation, and
    the canonical, hreflang and breadcrumb URL builders. */
module Seo {
  import opened Wrappers
  import Strings
  import Lists
  import Sorting
  import JsObject

  /** `BASE_URL`, the default origin of every URL built here. */
  const BaseUrl := "https://neomsyria.com"

  // ---------------------------------------------------------------------------
  // generateMetaDescription

  const DefaultMaxLength: nat := 160

  /** The pattern `<[^>]*>` has no match: no `<` is followed, anywhere later,
      by a `>`. */
  predicate TagFree(s: string) {
    forall i, j :: 0 <= i < j < |s| && s[i] == '<' ==> s[j] != '>'
  }

  /** `s.replace(/<[^>]*>/g, "")`: from left to right, every `<` that has a
      `>` somewhere after it is removed together with everything up to and
      including the first such `>`. */
  function StripTags(s: string): (r: string)
    ensures multiset(r) <= multiset(s)
    ensures TagFree(r)
    ensures TagFree(s) ==> r == s
    decreases |s|
  {
    if s == [] then []
    else
      var k := Strings.IndexOf(s[1..], '>');
      if s[0] == '<' && k >= 0 then
        TagAt(s, k + 1);
        StripTags(s[k + 2..])
      else
        var t := StripTags(s[1..]);
        KeepFirst(s, t);
        [s[0]] + t
  }

  /** A `<` at the front and a `>` at `j` make a tag; the text after it is
      part of the text. */
  lemma TagAt(s: string, j: nat)
    requires 0 < j < |s| && s[0] == '<' && s[j] == '>'
    ensures !TagFree(s)
    ensures multiset(s[j + 1..]) <= multiset(s)
  {
    assert s == s[..j + 1] + s[j + 1..];
  }

  /** Keeping the first character of `s` in front of the stripped rest. */
  lemma KeepFirst(s: string, t: string)
    requires |s| > 0 && multiset(t) <= multiset(s[1..]) && TagFree(t)
    requires s[0] == '<' ==> forall j :: 1 <= j < |s| ==> s[j] != '>'
    ensures multiset([s[0]] + t) <= multiset(s)
    ensures TagFree([s[0]] + t)
    ensures TagFree(s) ==> TagFree(s[1..])
  {
    assert s == [s[0]] + s[1..];
    if s[0] == '<' {
      forall j | 0 <= j < |t| ensures t[j] != '>' {
        assert t[j] in multiset(s[1..]);
      }
    }
    if TagFree(s) {
      forall i, j | 0 <= i < j < |s[1..]| && s[1..][i] == '<' ensures s[1..][j] != '>' {
        assert s[i + 1] == '<';
      }
    }
  }

  /** The text before a `<` is kept as it stands, in front of the stripped
      rest. */
  lemma StripTagsKeepsText(t: string, s: string)
    requires '<' !in t
    ensures StripTags(t + s) == t + StripTags(s)
  {
    var u := t + s;
    StripTagsPrefix(u, |t|);
    assert u[..|t|] == t && u[|t|..] == s;
  }

  /** The first `n` characters, none of them a `<`, are kept. */
  lemma {:induction false} StripTagsPrefix(u: string, n: nat)
    requires n <= |u| && forall k :: 0 <= k < n ==> u[k] != '<'
    ensures StripTags(u) == u[..n] + StripTags(u[n..])
  {
    if n == 0 {
      assert u[..0] + StripTags(u[0..]) == StripTags(u);
    } else {
      StripTagsPrefix(u, n - 1);
      var v := u[n - 1..];
      StripTagsFirst(v);
      assert v[0] == u[n - 1] && v[1..] == u[n..];
      PrefixStep(u, n, StripTags(u), StripTags(v), StripTags(u[n..]));
    }
  }

  lemma PrefixStep(u: string, n: nat, a: string, b: string, c: string)
    requires 0 < n <= |u| && a == u[..n - 1] + b && b == [u[n - 1]] + c
    ensures a == u[..n] + c
  {
    assert u[..n - 1] + [u[n - 1]] == u[..n];
  }

  /** A first character other than `<` is kept. */
  lemma StripTagsFirst(u: string)
    requires u != [] && u[0] != '<'
    ensures StripTags(u) == [u[0]] + StripTags(u[1..])
  {
  }

  /** A `<`, then text without `>`, then a `>` is a tag: it disappears
      entirely and stripping goes on after it. */
  lemma StripTagsDropsTag(tag: string, rest: string)
    requires '>' !in tag
    ensures StripTags(['<'] + tag + ['>'] + rest) == StripTags(rest)
  {
    var u := ['<'] + tag + ['>'] + rest;
    assert u[1..] == tag + ['>'] + rest;
    assert u[1..][|tag|] == '>';
    assert Strings.IndexOf(u[1..], '>') == |tag|;
    assert u[|tag| + 2..] == rest;
  }

  /** A slice of a tag-free text is tag-free. */
  lemma TagFreeSlice(s: string, a: nat, b: nat)
    requires a <= b <= |s| && TagFree(s)
    ensures TagFree(s[a..b])
  {
    forall i, j | 0 <= i < j < b - a && s[a..b][i] == '<' ensures s[a..b][j] != '>' {
      assert s[a + i] == '<';
    }
  }

  /** The text a description is cut from: tags stripped, then trimmed. */
  function CleanText(text: string): (r: string)
    ensures TagFree(r)
    ensures r == [] || (!Strings.IsSpace(r[0]) && !Strings.IsSpace(r[|r| - 1]))
    ensures TagFree(text) ==> r == Strings.Trim(text)
  {
    TrimTagFree(StripTags(text));
    Strings.Trim(StripTags(text))
  }

  /** Trimming a tag-free text leaves it tag-free. */
  lemma TrimTagFree(t: string)
    requires TagFree(t)
    ensures TagFree(Strings.Trim(t))
  {
    var u := Strings.TrimStart(t);
    var r := Strings.TrimEnd(u);
    assert r == Strings.Trim(t);
    Strings.PrefixOfSuffix(t, u, r);
    TagFreeSlice(t, |t| - |u|, |t| - |u| + |r|);
  }

  /** `cut` is where a text longer than `maxLength` is cut: at the last space
      strictly after index 0 that lies before `maxLength`, or at `maxLength`
      when there is no such space. */
  predicate WordCut(clean: string, maxLength: nat, cut: nat)
    requires |clean| > maxLength
  {
    && cut <= maxLength
    && (forall j :: cut < j < maxLength ==> clean[j] != ' ')
    && (if 0 < cut < maxLength then clean[cut] == ' '
        else cut == maxLength && forall j :: 0 < j < maxLength ==> clean[j] != ' ')
  }

  /** A text longer than `maxLength` cut at a word boundary, with `...`
      appended. */
  function Truncate(clean: string, maxLength: nat): (r: string)
    requires |clean| > maxLength
    ensures |r| >= 3 && r[|r| - 3..] == "..."
    ensures WordCut(clean, maxLength, |r| - 3)
    ensures r[..|r| - 3] == clean[..|r| - 3]
  {
    var truncated := clean[..maxLength];
    var lastSpace := Strings.LastIndexOf(truncated, ' ');
    var kept := if lastSpace > 0 then truncated[..lastSpace] else truncated;
    var r := kept + "...";
    assert r[..|r| - 3] == kept && r[|r| - 3..] == "...";
    r
  }

  /** `generateMetaDescription(text, maxLength)`; `None` stands for a missing
      text. */
  function MetaDescription(text: Option<string>, maxLength: nat): (r: string)
    ensures text.None? || text == Some("") ==> r == ""
    ensures text.Some? && text.value != "" && |CleanText(text.value)| <= maxLength
            ==> r == CleanText(text.value)
    ensures text.Some? && text.value != "" && |CleanText(text.value)| > maxLength
            ==> var clean := CleanText(text.value);
                && |r| >= 3 && r[|r| - 3..] == "..."
                && WordCut(clean, maxLength, |r| - 3)
                && r[..|r| - 3] == clean[..|r| - 3]
  {
    if text.None? || text.value == "" then ""
    else
      var clean := CleanText(text.value);
      if |clean| <= maxLength then clean else Truncate(clean, maxLength)
  }

  // ---------------------------------------------------------------------------
  // generateKeywords

  const DefaultKeywords: seq<string> := [
    "Neom Holding",
    "Saudi-Syrian investment",
    "Syria reconstruction",
    "holding company",
    "investment management",
    "corporate governance",
    "ESG standards",
    "sustainable investment"
  ]

  const StopWords: seq<string> := [
    "this", "that", "with", "from", "they", "have", "been", "were", "said",
    "each", "which", "their", "time", "will", "about", "there", "could",
    "other", "after", "first", "well", "also", "where", "much", "some", "very",
    "when", "here", "just", "into", "over", "think", "more", "your", "work",
    "know", "than", "then", "them", "these", "so", "its", "now", "find", "any",
    "new", "way", "may", "say", "use", "man", "day", "get", "come", "made",
    "part"
  ]

  /** `\w`: an ASCII letter, a digit or `_`. */
  predicate IsWordChar(c: char) {
    'a' <= c <= 'z' || 'A' <= c <= 'Z' || '0' <= c <= '9' || c == '_'
  }

  predicate IsWordOrSpace(c: char) { IsWordChar(c) || Strings.IsSpace(c) }

  predicate IsNotSpace(c: char) { !Strings.IsSpace(c) }

  /** A character an extracted keyword can hold: `\w` after lower-casing. */
  predicate IsKeywordChar(c: char) { 'a' <= c <= 'z' || '0' <= c <= '9' || c == '_' }

  /** The index of the first whitespace character, or `|s|`. */
  function FirstSpace(s: string): (i: nat)
    ensures i <= |s|
    ensures forall k :: 0 <= k < i ==> !Strings.IsSpace(s[k])
    ensures i < |s| ==> Strings.IsSpace(s[i])
  {
    if s == [] || Strings.IsSpace(s[0]) then 0 else 1 + FirstSpace(s[1..])
  }

  /** The end of the run of whitespace that starts at `i`. */
  function SpaceRunEnd(s: string, i: nat): (j: nat)
    requires i < |s| && Strings.IsSpace(s[i])
    ensures i < j <= |s|
    ensures forall k :: i <= k < j ==> Strings.IsSpace(s[k])
    ensures j < |s| ==> !Strings.IsSpace(s[j])
    decreases |s| - i
  {
    if i + 1 < |s| && Strings.IsSpace(s[i + 1]) then SpaceRunEnd(s, i + 1) else i + 1
  }

  /** One step of the split: the piece before the first run of whitespace,
      then the pieces of what follows the run. */
  lemma SplitStep(s: string, i: nat, j: nat, rest: seq<string>)
    requires i < j <= |s|
    requires forall k :: 0 <= k < i ==> !Strings.IsSpace(s[k])
    requires forall k :: i <= k < j ==> Strings.IsSpace(s[k])
    requires forall p, k :: 0 <= p < |rest| && 0 <= k < |rest[p]|
               ==> rest[p][k] in s[j..] && !Strings.IsSpace(rest[p][k])
    requires Concat(rest) == Lists.Filter(s[j..], IsNotSpace)
    ensures var r := [s[..i]] + rest;
            && (forall p, k :: 0 <= p < |r| && 0 <= k < |r[p]|
                  ==> r[p][k] in s && !Strings.IsSpace(r[p][k]))
            && Concat(r) == Lists.Filter(s, IsNotSpace)
  {
    var r := [s[..i]] + rest;
    Lists.FilterPassFail(s, i, j, IsNotSpace);
    assert Concat(r) == s[..i] + Concat(rest) by {
      assert r[1..] == rest;
    }
    forall p, k | 0 <= p < |r| && 0 <= k < |r[p]|
      ensures r[p][k] in s && !Strings.IsSpace(r[p][k])
    {
      if p == 0 {
        assert r[p][k] == s[k];
      } else {
        assert r[p] == rest[p - 1];
        var m :| 0 <= m < |s[j..]| && s[j..][m] == rest[p - 1][k];
        assert s[j + m] == r[p][k];
      }
    }
  }

  /** `s.split(/\s+/)`: the pieces between maximal runs of whitespace (an
      empty first or last piece when `s` starts or ends with whitespace). */
  function SplitOnSpaces(s: string): (pieces: seq<string>)
    ensures |pieces| >= 1
    ensures forall p, k :: 0 <= p < |pieces| && 0 <= k < |pieces[p]|
              ==> pieces[p][k] in s && !Strings.IsSpace(pieces[p][k])
    ensures Concat(pieces) == Lists.Filter(s, IsNotSpace)
    decreases |s|
  {
    var i := FirstSpace(s);
    if i == |s| then
      Lists.FilterAll(s, IsNotSpace);
      assert Concat([s]) == s;
      [s]
    else
      var j := SpaceRunEnd(s, i);
      var rest := SplitOnSpaces(s[j..]);
      SplitStep(s, i, j, rest);
      [s[..i]] + rest
  }

  /** The characters of `s` from a point where a run of whitespace has
      (`inRun`) or has not just been seen, with every maximal run of
      whitespace written as one space. */
  function CollapseFrom(s: string, inRun: bool): string {
    if s == [] then []
    else if Strings.IsSpace(s[0]) then (if inRun then [] else " ") + CollapseFrom(s[1..], true)
    else [s[0]] + CollapseFrom(s[1..], false)
  }

  /** `s.replace(/\s+/g, " ")`: every maximal run of whitespace becomes one
      space. */
  function Collapse(s: string): string { CollapseFrom(s, false) }

  lemma {:induction false} CollapseWord(a: string, t: string, inRun: bool)
    requires forall k :: 0 <= k < |a| ==> !Strings.IsSpace(a[k])
    ensures CollapseFrom(a + t, inRun) == a + CollapseFrom(t, if a == [] then inRun else false)
  {
    if a == [] {
      assert a + t == t;
    } else {
      var u := a + t;
      assert u[0] == a[0] && u[1..] == a[1..] + t;
      CollapseWord(a[1..], t, false);
      assert a == [a[0]] + a[1..];
    }
  }

  lemma {:induction false} CollapseRun(a: string, t: string, inRun: bool)
    requires a != [] && forall k :: 0 <= k < |a| ==> Strings.IsSpace(a[k])
    ensures CollapseFrom(a + t, inRun) == (if inRun then [] else " ") + CollapseFrom(t, true)
  {
    var u := a + t;
    assert u[0] == a[0] && u[1..] == a[1..] + t;
    if |a| > 1 {
      CollapseRun(a[1..], t, true);
    }
  }

  /** Splitting on `/\s+/` and joining with one space gives the text with
      its whitespace runs collapsed: the pieces are exactly the text between
      maximal runs. */
  lemma {:induction false} SplitOnSpacesJoin(s: string)
    ensures Strings.Join(SplitOnSpaces(s), " ") == Collapse(s)
    decreases |s|
  {
    var i := FirstSpace(s);
    SplitOnSpacesUnfold(s);
    if i == |s| {
      CollapseWord(s, [], false);
      assert s + [] == s;
    } else {
      var j := SpaceRunEnd(s, i);
      SplitOnSpacesJoin(s[j..]);
      CollapseStep(s, i, j);
      JoinStep(s[..i], SplitOnSpaces(s[j..]), " ");
    }
  }

  /** Collapsing a text that starts with a word and a run of whitespace. */
  lemma CollapseStep(s: string, i: nat, j: nat)
    requires i < j <= |s|
    requires forall k :: 0 <= k < i ==> !Strings.IsSpace(s[k])
    requires forall k :: i <= k < j ==> Strings.IsSpace(s[k])
    requires j < |s| ==> !Strings.IsSpace(s[j])
    ensures Collapse(s) == s[..i] + " " + Collapse(s[j..])
  {
    assert s == s[..i] + (s[i..j] + s[j..]);
    CollapseWord(s[..i], s[i..j] + s[j..], false);
    CollapseRun(s[i..j], s[j..], false);
    var t := s[j..];
    assert CollapseFrom(t, true) == CollapseFrom(t, false);
  }

  lemma JoinStep(first: string, rest: seq<string>, sep: string)
    requires rest != []
    ensures Strings.Join([first] + rest, sep) == first + sep + Strings.Join(rest, sep)
  {
    assert ([first] + rest)[1..] == rest;
  }

  /** A word with whitespace (or an end of the text) on both sides is one of
      the pieces. */
  lemma {:induction false} PieceBetweenSpaces(x: string, w: string, y: string)
    requires x == [] || Strings.IsSpace(x[|x| - 1])
    requires y == [] || Strings.IsSpace(y[0])
    requires w != [] && forall k :: 0 <= k < |w| ==> !Strings.IsSpace(w[k])
    ensures w in SplitOnSpaces(x + w + y)
    decreases |x|
  {
    var s := x + w + y;
    if x == [] {
      assert s == w + y;
      PieceAtFront(w, y);
    } else {
      RunBeforeWord(x, w, y);
      var i := FirstSpace(s);
      var j := SpaceRunEnd(s, i);
      assert s[j..] == x[j..] + w + y;
      PieceBetweenSpaces(x[j..], w, y);
      SplitOnSpacesUnfold(s);
      InTail(s[..i], SplitOnSpaces(s[j..]), w);
    }
  }

  /** A word at the front, followed by whitespace or nothing, is the first
      piece. */
  lemma PieceAtFront(w: string, y: string)
    requires y == [] || Strings.IsSpace(y[0])
    requires w != [] && forall k :: 0 <= k < |w| ==> !Strings.IsSpace(w[k])
    ensures w in SplitOnSpaces(w + y)
  {
    var s := w + y;
    WordFirstSpace(w, y);
    if |w| < |s| {
      assert s[..|w|] == w;
      SplitOnSpacesUnfold(s);
      InHead(w, SplitOnSpaces(s[SpaceRunEnd(s, |w|)..]));
    } else {
      assert s == w;
      SplitOnSpacesUnfold(s);
      InHead(w, []);
    }
  }

  lemma InHead(h: string, t: seq<string>)
    ensures h in [h] + t
  {
    assert ([h] + t)[0] == h;
  }

  lemma InTail(h: string, t: seq<string>, w: string)
    requires w in t
    ensures w in [h] + t
  {
  }

  /** A text that starts with a word followed by whitespace or nothing: its
      first whitespace is right after the word. */
  lemma WordFirstSpace(w: string, y: string)
    requires y == [] || Strings.IsSpace(y[0])
    requires forall k :: 0 <= k < |w| ==> !Strings.IsSpace(w[k])
    ensures FirstSpace(w + y) == |w|
  {
    var s := w + y;
    forall k | 0 <= k < |w| ensures !Strings.IsSpace(s[k]) {
      assert s[k] == w[k];
    }
    if |w| < |s| {
      assert s[|w|] == y[0];
    }
  }

  /** A text that ends with whitespace before a word: its first run of
      whitespace ends before the word. */
  lemma RunBeforeWord(x: string, w: string, y: string)
    requires x != [] && Strings.IsSpace(x[|x| - 1])
    requires w != [] && !Strings.IsSpace(w[0])
    ensures FirstSpace(x + w + y) < |x|
    ensures SpaceRunEnd(x + w + y, FirstSpace(x + w + y)) <= |x|
  {
    var s := x + w + y;
    assert s[|x| - 1] == x[|x| - 1];
    assert s[|x|] == w[0];
  }

  /** One step of the split, as a fact about its result. */
  lemma SplitOnSpacesUnfold(s: string)
    ensures FirstSpace(s) == |s| ==> SplitOnSpaces(s) == [s]
    ensures FirstSpace(s) < |s| ==>
              SplitOnSpaces(s) == [s[..FirstSpace(s)]] + SplitOnSpaces(s[SpaceRunEnd(s, FirstSpace(s))..])
  {
  }

  function Concat(pieces: seq<string>): string {
    if pieces == [] then "" else pieces[0] + Concat(pieces[1..])
  }

  /** The text lower-cased, with everything but `\w` and whitespace gone. */
  function CleanWords(content: string): string {
    Lists.Filter(Strings.ToLower(content), IsWordOrSpace)
  }

  /** Survives both word filters: longer than 3 characters and not a stop word. */
  predicate IsCandidate(w: string) { |w| > 3 && w !in StopWords }

  /** The candidate words of a text, in order and with repetitions: lower-cased,
      stripped of everything but `\w` and whitespace, split on whitespace and
      filtered. */
  function Words(content: string): (ws: seq<string>)
    ensures forall i :: 0 <= i < |ws| ==> IsCandidate(ws[i])
    ensures forall i, k :: 0 <= i < |ws| && 0 <= k < |ws[i]| ==> IsKeywordChar(ws[i][k])
  {
    var lower := Strings.ToLower(content);
    var clean := CleanWords(content);
    var pieces := SplitOnSpaces(clean);
    var ws := Lists.Filter(pieces, IsCandidate);
    KeywordCharsFrom(lower, clean, pieces, ws);
    ws
  }

  /** Every candidate word of the text that stands between whitespace (or an
      end of the text) is found: nothing the source would count is missed. */
  lemma WordsComplete(a: string, w: string, b: string)
    requires a == [] || Strings.IsSpace(a[|a| - 1])
    requires b == [] || Strings.IsSpace(b[0])
    requires IsCandidate(w) && forall k :: 0 <= k < |w| ==> IsKeywordChar(w[k])
    ensures w in Words(a + w + b)
  {
    var x, y := CleanWords(a), CleanWords(b);
    CleanAround(a, w, b);
    CleanKeepsEdges(a, b);
    assert forall k :: 0 <= k < |w| ==> !Strings.IsSpace(w[k]);
    PieceBetweenSpaces(x, w, y);
    WordsHasPiece(a + w + b, w);
  }

  /** Whitespace at the end of one text and at the start of another
      survives the cleaning. */
  lemma CleanKeepsEdges(a: string, b: string)
    requires a == [] || Strings.IsSpace(a[|a| - 1])
    requires b == [] || Strings.IsSpace(b[0])
    ensures var x := CleanWords(a); x == [] || Strings.IsSpace(x[|x| - 1])
    ensures var y := CleanWords(b); y == [] || Strings.IsSpace(y[0])
  {
    if a != [] {
      FilterKeepsLast(Strings.ToLower(a), IsWordOrSpace);
    }
  }

  /** A candidate among the pieces of the cleaned text is one of the words. */
  lemma WordsHasPiece(content: string, w: string)
    requires w in SplitOnSpaces(CleanWords(content)) && IsCandidate(w)
    ensures w in Words(content)
  {
    var pieces := SplitOnSpaces(CleanWords(content));
    var n :| 0 <= n < |pieces| && pieces[n] == w;
    assert w in Lists.Filter(pieces, IsCandidate);
  }

  /** Lower-casing and keeping `\w` and whitespace leaves a lower-case word
      in place. */
  lemma CleanAround(a: string, w: string, b: string)
    requires forall k :: 0 <= k < |w| ==> IsKeywordChar(w[k])
    ensures CleanWords(a + w + b) == CleanWords(a) + w + CleanWords(b)
  {
    var la, lb := Strings.ToLower(a), Strings.ToLower(b);
    LowerAround(a, w, b);
    Lists.FilterAppend(la + w, lb, IsWordOrSpace);
    Lists.FilterAppend(la, w, IsWordOrSpace);
    Lists.FilterAll(w, IsWordOrSpace);
  }

  /** Lower-casing leaves a word without capitals as it is. */
  lemma LowerAround(a: string, w: string, b: string)
    requires forall k :: 0 <= k < |w| ==> !Strings.IsUpper(w[k])
    ensures Strings.ToLower(a + w + b) == Strings.ToLower(a) + w + Strings.ToLower(b)
  {
  }

  /** A kept last element is the last element of the filtered sequence. */
  lemma FilterKeepsLast(t: string, p: char -> bool)
    requires t != [] && p(t[|t| - 1])
    ensures var r := Lists.Filter(t, p); r != [] && r[|r| - 1] == t[|t| - 1]
  {
    assert t == t[..|t| - 1] + [t[|t| - 1]];
    Lists.FilterAppend(t[..|t| - 1], [t[|t| - 1]], p);
  }

  /** A piece of the lower-cased text, once everything but `\w` and
      whitespace is gone and it holds no whitespace, is made of keyword
      characters. */
  lemma KeywordCharsFrom(lower: string, clean: string, pieces: seq<string>, ws: seq<string>)
    requires forall n :: 0 <= n < |lower| ==> !Strings.IsUpper(lower[n])
    requires forall m :: 0 <= m < |clean| ==> IsWordOrSpace(clean[m]) && clean[m] in lower
    requires forall p, k :: 0 <= p < |pieces| && 0 <= k < |pieces[p]|
               ==> pieces[p][k] in clean && !Strings.IsSpace(pieces[p][k])
    requires forall i :: 0 <= i < |ws| ==> ws[i] in pieces
    ensures forall i, k :: 0 <= i < |ws| && 0 <= k < |ws[i]| ==> IsKeywordChar(ws[i][k])
  {
    forall i, k | 0 <= i < |ws| && 0 <= k < |ws[i]| ensures IsKeywordChar(ws[i][k]) {
      var p :| 0 <= p < |pieces| && pieces[p] == ws[i];
      var c := ws[i][k];
      assert c == pieces[p][k];
      var m :| 0 <= m < |clean| && clean[m] == c;
      var n :| 0 <= n < |lower| && lower[n] == c;
    }
  }

  /** `wordCount[word] = (wordCount[word] || 0) + 1`. */
  function CountOne(wordCount: JsObject.Object<nat>, word: string): (r: JsObject.Object<nat>)
    requires JsObject.Valid(wordCount)
    ensures JsObject.Valid(r)
  {
    JsObject.Set(wordCount, word, JsObject.Get(wordCount, word).GetOr(0) + 1)
  }

  /** The `wordCount` dictionary after counting `words` one after the other. */
  function WordCount(words: seq<string>): (o: JsObject.Object<nat>)
    ensures JsObject.Valid(o)
    ensures forall w :: w in JsObject.Keys(o) <==> w in words
  {
    if words == [] then JsObject.Object([])
    else CountOne(WordCount(words[..|words| - 1]), words[|words| - 1])
  }

  /** Counting the word at index `i` after the words before it. */
  lemma WordCountStep(words: seq<string>, i: nat)
    requires i < |words|
    ensures WordCount(words[..i + 1]) == CountOne(WordCount(words[..i]), words[i])
  {
    assert words[..i + 1][..i] == words[..i];
  }

  /** Counting a word adds one to its count and leaves the others alone. */
  lemma CountOneGet(wordCount: JsObject.Object<nat>, word: string, k: string)
    requires JsObject.Valid(wordCount)
    ensures JsObject.Get(CountOne(wordCount, word), k)
         == if k == word then Some(JsObject.Get(wordCount, word).GetOr(0) + 1) else JsObject.Get(wordCount, k)
  {
  }

  /** `wordCount` maps each word to its number of occurrences ... */
  lemma {:induction false} WordCountGet(words: seq<string>, k: string)
    ensures JsObject.Get(WordCount(words), k)
         == if k in words then Some(Lists.Occurrences(words, k)) else None
  {
    if words != [] {
      var p, w := words[..|words| - 1], words[|words| - 1];
      assert words == p + [w];
      assert WordCount(words) == CountOne(WordCount(p), w);
      WordCountGet(p, k);
      CountOneGet(WordCount(p), w, k);
      Lists.OccurrencesSnoc(p, w, k);
      Lists.OccurrencesPositive(p, k);
      assert k in words <==> k in p || k == w;
      var n := Lists.Occurrences(p, k);
      if k == w {
        assert Lists.Occurrences(words, k) == n + 1;
        if k in p {
          assert JsObject.Get(WordCount(p), k) == Some(n);
        } else {
          assert n == 0;
          assert JsObject.Get(WordCount(p), k) == None;
        }
        assert JsObject.Get(WordCount(words), k) == Some(Lists.Occurrences(words, k));
        assert k in words;
      } else {
        assert Lists.Occurrences(words, k) == n;
        assert JsObject.Get(WordCount(words), k) == JsObject.Get(WordCount(p), k);
        assert k in words <==> k in p;
      }
    }
  }

  lemma WordCountCounts(words: seq<string>)
    ensures forall w :: JsObject.Get(WordCount(words), w)
                     == if w in words then Some(Lists.Occurrences(words, w)) else None
  {
    forall w ensures JsObject.Get(WordCount(words), w)
                  == if w in words then Some(Lists.Occurrences(words, w)) else None
    {
      WordCountGet(words, w);
    }
  }

  /** ... and holds the words in the order of their first occurrence. */
  lemma {:induction false} WordCountKeys(words: seq<string>)
    ensures JsObject.Keys(WordCount(words)) == Lists.Distinct(words)
  {
    if words != [] {
      var p := words[..|words| - 1];
      WordCountKeys(p);
      var d := Lists.Distinct(p);
      assert words[|words| - 1] in d <==> words[|words| - 1] in p by {
        assert forall i :: 0 <= i < |p| ==> p[i] in d;
      }
    }
  }

  /** Counts `words` into a fresh dictionary, one word at a time. */
  method CountWords(words: seq<string>) returns (wordCount: JsObject.Object<nat>)
    ensures wordCount == WordCount(words)
    ensures JsObject.Valid(wordCount)
  {
    wordCount := JsObject.Object([]);
    for i := 0 to |words|
      invariant wordCount == WordCount(words[..i])
    {
      WordCountStep(words, i);
      wordCount := CountOne(wordCount, words[i]);
    }
    assert words[..|words|] == words;
  }

  /** `Object.entries(wordCount)`. */
  function Entries(o: JsObject.Object<nat>): (es: seq<(string, nat)>)
    ensures |es| == |JsObject.OwnKeys(o)|
    ensures forall i :: 0 <= i < |es| ==> es[i].0 == JsObject.OwnKeys(o)[i]
    ensures forall i :: 0 <= i < |es| ==> es[i].1 == Count(o, es[i].0)
  {
    var ks := JsObject.OwnKeys(o);
    seq(|ks|, i requires 0 <= i < |ks| => (ks[i], JsObject.Get(o, ks[i]).GetOr(0)))
  }

  /** The count a dictionary records for a word, 0 when it has none. */
  function Count(o: JsObject.Object<nat>, w: string): nat {
    JsObject.Get(o, w).GetOr(0)
  }

  /** The comparator `([, a], [, b]) => b - a`: by count, highest first. */
  function CountRank(e: (string, nat)): int { -(e.1 as int) }

  /** `s.slice(0, n)`. */
  function Take<T>(s: seq<T>, n: nat): (r: seq<T>)
    ensures |r| == if |s| <= n then |s| else n
    ensures forall i :: 0 <= i < |r| ==> r[i] == s[i]
  {
    if |s| <= n then s else s[..n]
  }

  /** The entries, most frequent first (ties in entry order). */
  function Ranked(wordCount: JsObject.Object<nat>): (r: seq<(string, nat)>)
    ensures Sorting.Sorted(r, CountRank)
    ensures multiset(r) == multiset(Entries(wordCount))
    ensures forall k :: Sorting.WithRank(r, CountRank, k) == Sorting.WithRank(Entries(wordCount), CountRank, k)
  {
    var es := Entries(wordCount);
    Sorting.SortByOrderedPermutation(es, CountRank);
    assert forall k :: Sorting.WithRank(Sorting.SortBy(es, CountRank), CountRank, k) == Sorting.WithRank(es, CountRank, k) by {
      forall k ensures Sorting.WithRank(Sorting.SortBy(es, CountRank), CountRank, k) == Sorting.WithRank(es, CountRank, k) {
        Sorting.SortByStable(es, CountRank, k);
      }
    }
    Sorting.SortBy(es, CountRank)
  }

  /** A ranked entry is a key of the dictionary with its count. */
  lemma RankedEntry(wordCount: JsObject.Object<nat>, i: nat)
    requires i < |Ranked(wordCount)|
    ensures Ranked(wordCount)[i].0 in JsObject.OwnKeys(wordCount)
    ensures Ranked(wordCount)[i].1 == Count(wordCount, Ranked(wordCount)[i].0)
  {
    var r, es := Ranked(wordCount), Entries(wordCount);
    assert r[i] in multiset(es);
    var m :| 0 <= m < |es| && es[m] == r[i];
  }

  /** The words of the first ten ranked entries: `.slice(0, 10).map(([word]) => word)`. */
  function FirstWords(ranked: seq<(string, nat)>): (top: seq<string>)
    ensures |top| == if |ranked| <= 10 then |ranked| else 10
    ensures forall i :: 0 <= i < |top| ==> top[i] == ranked[i].0
  {
    var best := Take(ranked, 10);
    seq(|best|, i requires 0 <= i < |best| => best[i].0)
  }

  /** The ten most frequent words of a `wordCount` dictionary. */
  function TopKeywords(wordCount: JsObject.Object<nat>): (top: seq<string>)
    ensures |top| <= 10
    ensures |top| == if |JsObject.OwnKeys(wordCount)| <= 10 then |JsObject.OwnKeys(wordCount)| else 10
    ensures forall i :: 0 <= i < |top| ==> top[i] in JsObject.OwnKeys(wordCount)
    ensures forall i, j :: 0 <= i < j < |top| ==> Count(wordCount, top[i]) >= Count(wordCount, top[j])
  {
    RankedTop(wordCount);
    FirstWords(Ranked(wordCount))
  }

  /** The first ten ranked words are keys of the dictionary, by descending
      count. */
  lemma RankedTop(wordCount: JsObject.Object<nat>)
    ensures var top := FirstWords(Ranked(wordCount));
            && |top| == (if |JsObject.OwnKeys(wordCount)| <= 10 then |JsObject.OwnKeys(wordCount)| else 10)
            && (forall i :: 0 <= i < |top| ==> top[i] in JsObject.OwnKeys(wordCount))
            && (forall i, j :: 0 <= i < j < |top| ==> Count(wordCount, top[i]) >= Count(wordCount, top[j]))
  {
    var ranked := Ranked(wordCount);
    var top := FirstWords(ranked);
    assert |ranked| == |Entries(wordCount)| by {
      assert |multiset(ranked)| == |multiset(Entries(wordCount))|;
    }
    forall i | 0 <= i < |top| ensures top[i] in JsObject.OwnKeys(wordCount) {
      RankedEntry(wordCount, i);
    }
    forall i, j | 0 <= i < j < |top| ensures Count(wordCount, top[i]) >= Count(wordCount, top[j]) {
      RankedEntry(wordCount, i);
      RankedEntry(wordCount, j);
      assert CountRank(ranked[i]) <= CountRank(ranked[j]);
    }
  }

  /** The entry of a word records how often the word occurs. */
  predicate Counted(words: seq<string>, e: (string, nat)) {
    e.0 in words && e.1 == Lists.Occurrences(words, e.0)
  }

  /** `Object.entries` lists each distinct word exactly once. */
  lemma CountKeysPermutation(words: seq<string>)
    ensures multiset(JsObject.OwnKeys(WordCount(words))) == multiset(Lists.Distinct(words))
    ensures |JsObject.OwnKeys(WordCount(words))| == |Lists.Distinct(words)|
    ensures Lists.NoDuplicates(JsObject.OwnKeys(WordCount(words)))
  {
    var ks := JsObject.OwnKeys(WordCount(words));
    WordCountKeys(words);
    JsObject.OwnKeysPermutation(WordCount(words));
    assert |ks| == |Lists.Distinct(words)| by {
      assert |multiset(ks)| == |multiset(Lists.Distinct(words))|;
    }
    Lists.NoDuplicatesPermutation(Lists.Distinct(words), ks);
  }

  /** Each entry holds a word of the text with its count, no entry is
      repeated, and every word of the text has an entry. */
  predicate CountedEntries(words: seq<string>, es: seq<(string, nat)>) {
    && (forall i :: 0 <= i < |es| ==> Counted(words, es[i]))
    && Lists.NoDuplicates(es)
    && (forall w :: w in words ==> exists i :: 0 <= i < |es| && es[i].0 == w)
  }

  /** `top` lists distinct words of the text in non-increasing frequency,
      and no word of the text left out is more frequent than any word
      kept. */
  predicate ByFrequency(words: seq<string>, top: seq<string>) {
    && Lists.NoDuplicates(top)
    && (forall i :: 0 <= i < |top| ==> top[i] in words)
    && (forall i, j :: 0 <= i < j < |top|
          ==> Lists.Occurrences(words, top[i]) >= Lists.Occurrences(words, top[j]))
    && (forall w, i :: w in words && w !in top && 0 <= i < |top|
          ==> Lists.Occurrences(words, w) <= Lists.Occurrences(words, top[i]))
  }

  /** The entries of the counted dictionary: one per distinct word, with
      its count. */
  lemma EntriesOfCount(words: seq<string>)
    ensures CountedEntries(words, Entries(WordCount(words)))
    ensures |Entries(WordCount(words))| == |Lists.Distinct(words)|
  {
    var o := WordCount(words);
    var ks := JsObject.OwnKeys(o);
    var es := Entries(o);
    CountKeysPermutation(words);
    forall i | 0 <= i < |es| ensures Counted(words, es[i]) {
      assert ks[i] in multiset(Lists.Distinct(words));
      assert ks[i] in words;
      WordCountGet(words, ks[i]);
    }
    forall i, j | 0 <= i < j < |es| ensures es[i] != es[j] {
      assert ks[i] != ks[j];
    }
    forall w | w in words ensures exists i :: 0 <= i < |es| && es[i].0 == w {
      var n :| 0 <= n < |words| && words[n] == w;
      assert w in Lists.Distinct(words);
      assert w in multiset(ks);
      var i :| 0 <= i < |ks| && ks[i] == w;
      assert es[i].0 == w;
    }
  }

  /** What ranking keeps of the entries: each word of the text once, with its
      count, now most frequent first. */
  lemma {:induction false} RankEntries(words: seq<string>, es: seq<(string, nat)>)
    requires CountedEntries(words, es)
    ensures CountedEntries(words, Sorting.SortBy(es, CountRank))
    ensures Sorting.Sorted(Sorting.SortBy(es, CountRank), CountRank)
    ensures |Sorting.SortBy(es, CountRank)| == |es|
  {
    var ranked := Sorting.SortBy(es, CountRank);
    Sorting.SortByOrderedPermutation(es, CountRank);
    Lists.NoDuplicatesPermutation(es, ranked);
    forall i | 0 <= i < |ranked| ensures Counted(words, ranked[i]) {
      assert ranked[i] in multiset(es);
      var m :| 0 <= m < |es| && es[m] == ranked[i];
    }
    forall w | w in words ensures exists i :: 0 <= i < |ranked| && ranked[i].0 == w {
      var m :| 0 <= m < |es| && es[m].0 == w;
      assert es[m] in multiset(ranked);
      var q :| 0 <= q < |ranked| && ranked[q] == es[m];
    }
  }

  /** The first ten words of a ranking are distinct words of the text. */
  lemma FirstWordsDistinct(words: seq<string>, ranked: seq<(string, nat)>)
    requires CountedEntries(words, ranked)
    ensures Lists.NoDuplicates(FirstWords(ranked))
    ensures forall i :: 0 <= i < |FirstWords(ranked)| ==> FirstWords(ranked)[i] in words
  {
    var top := FirstWords(ranked);
    forall i, j | 0 <= i < j < |top| ensures top[i] != top[j] {
      assert ranked[i] != ranked[j];
    }
    forall i | 0 <= i < |top| ensures top[i] in words {
      assert Counted(words, ranked[i]);
    }
  }

  /** The first ten words of a ranking come in non-increasing frequency,
      and no word of the text left out is more frequent than any of them. */
  lemma FirstWordsOrdered(words: seq<string>, ranked: seq<(string, nat)>)
    requires CountedEntries(words, ranked)
    requires Sorting.Sorted(ranked, CountRank)
    ensures var top := FirstWords(ranked);
            && (forall i, j :: 0 <= i < j < |top|
                  ==> Lists.Occurrences(words, top[i]) >= Lists.Occurrences(words, top[j]))
            && (forall w, i :: w in words && w !in top && 0 <= i < |top|
                  ==> Lists.Occurrences(words, w) <= Lists.Occurrences(words, top[i]))
  {
    var top := FirstWords(ranked);
    assert forall q :: 0 <= q < |top| ==> ranked[q].0 in top;
    forall i, j | 0 <= i < j < |top|
      ensures Lists.Occurrences(words, top[i]) >= Lists.Occurrences(words, top[j])
    {
      assert CountRank(ranked[i]) <= CountRank(ranked[j]);
      assert Counted(words, ranked[i]) && Counted(words, ranked[j]);
    }
    forall w, i | w in words && w !in top && 0 <= i < |top|
      ensures Lists.Occurrences(words, w) <= Lists.Occurrences(words, top[i])
    {
      var q :| 0 <= q < |ranked| && ranked[q].0 == w;
      assert CountRank(ranked[i]) <= CountRank(ranked[q]);
      assert Counted(words, ranked[i]) && Counted(words, ranked[q]);
    }
  }

  /** The first ten words of a ranking are by frequency. */
  lemma FirstWordsByFrequency(words: seq<string>, ranked: seq<(string, nat)>)
    requires CountedEntries(words, ranked)
    requires Sorting.Sorted(ranked, CountRank)
    ensures ByFrequency(words, FirstWords(ranked))
  {
    FirstWordsDistinct(words, ranked);
    FirstWordsOrdered(words, ranked);
  }

  /** The extracted keywords are as many distinct words of the text as
      there are, up to ten, by frequency. */
  lemma TopKeywordsByFrequency(words: seq<string>)
    ensures |TopKeywords(WordCount(words))|
            == if |Lists.Distinct(words)| <= 10 then |Lists.Distinct(words)| else 10
    ensures ByFrequency(words, TopKeywords(WordCount(words)))
  {
    var es := Entries(WordCount(words));
    EntriesOfCount(words);
    RankEntries(words, es);
    FirstWordsByFrequency(words, Sorting.SortBy(es, CountRank));
  }

  /** `generateKeywords(content, additionalKeywords)`; `None` stands for a
      missing content. */
  method GenerateKeywords(content: Option<string>, additional: seq<string>) returns (keywords: seq<string>)
    ensures content.None? || content == Some("") ==> keywords == DefaultKeywords + additional
    ensures content.Some? && content.value != ""
            ==> keywords == DefaultKeywords + TopKeywords(WordCount(Words(content.value))) + additional
  {
    if content.None? || content.value == "" {
      return DefaultKeywords + additional;
    }
    var words := Words(content.value);
    var wordCount := CountWords(words);
    keywords := DefaultKeywords + TopKeywords(wordCount) + additional;
  }

  /** What the extracted keywords are made of. */
  lemma ExtractedKeywords(content: string)
    ensures var top := TopKeywords(WordCount(Words(content)));
            forall i :: 0 <= i < |top| ==> IsKeyword(top[i])
  {
    var ws := Words(content);
    TopKeywordsByFrequency(ws);
    KeywordsFromWords(ws, TopKeywords(WordCount(ws)));
  }

  /** A candidate word made of lower-case `\w` characters. */
  predicate IsKeyword(w: string) {
    IsCandidate(w) && forall k :: 0 <= k < |w| ==> IsKeywordChar(w[k])
  }

  lemma KeywordsFromWords(ws: seq<string>, top: seq<string>)
    requires forall i :: 0 <= i < |ws| ==> IsCandidate(ws[i])
    requires forall i, k :: 0 <= i < |ws| && 0 <= k < |ws[i]| ==> IsKeywordChar(ws[i][k])
    requires forall i :: 0 <= i < |top| ==> top[i] in ws
    ensures forall i :: 0 <= i < |top| ==> IsKeyword(top[i])
  {
    forall i | 0 <= i < |top| ensures IsKeyword(top[i]) {
      var m :| 0 <= m < |ws| && ws[m] == top[i];
    }
  }

  // ---------------------------------------------------------------------------
  // validateSEOData

  /** The fields checked; `None` stands for a missing field. */
  datatype SeoData = SeoData(title: Option<string>, description: Option<string>, keywords: Option<seq<string>>)

  /** The problems `validateSEOData` reports, in the order it checks them. */
  datatype SeoError = TitleTooShort | TitleTooLong | DescriptionTooShort | DescriptionTooLong | TooFewKeywords

  /** The message reported for each problem. */
  function Message(e: SeoError): string {
    match e
    case TitleTooShort => "Title should be at least 30 characters long"
    case TitleTooLong => "Title should be less than 60 characters for optimal display"
    case DescriptionTooShort => "Description should be at least 120 characters long"
    case DescriptionTooLong => "Description should be less than 160 characters for optimal display"
    case TooFewKeywords => "Should have at least 5 keywords"
  }

  /** The position of a problem in check order. */
  function Rank(e: SeoError): nat {
    match e
    case TitleTooShort => 0
    case TitleTooLong => 1
    case DescriptionTooShort => 2
    case DescriptionTooLong => 3
    case TooFewKeywords => 4
  }

  datatype Validation = Validation(isValid: bool, errors: seq<SeoError>)

  /** The problems with a text field that must be `min..max` long. */
  function LengthErrors(field: Option<string>, min: nat, max: nat, short: SeoError, long: SeoError): (es: seq<SeoError>)
    requires min <= max && short != long
    ensures short in es <==> !Truthy(field) || |field.value| < min
    ensures long in es <==> Truthy(field) && |field.value| > max
    ensures |es| <= 1 && forall i :: 0 <= i < |es| ==> es[i] == short || es[i] == long
  {
    if !Truthy(field) || |field.value| < min then [short]
    else if |field.value| > max then [long]
    else []
  }

  /** `validateSEOData(data)`: each problem is reported exactly when its
      condition holds, in check order, and the data is valid exactly when
      nothing is reported. */
  function ValidateSeoData(data: SeoData): (v: Validation)
    ensures v.isValid <==> v.errors == []
    ensures forall i, j :: 0 <= i < j < |v.errors| ==> Rank(v.errors[i]) < Rank(v.errors[j])
    ensures |v.errors| <= 3
  {
    var title := LengthErrors(data.title, 30, 60, TitleTooShort, TitleTooLong);
    var description := LengthErrors(data.description, 120, 160, DescriptionTooShort, DescriptionTooLong);
    var keywords := if data.keywords.None? || |data.keywords.value| < 5 then [TooFewKeywords] else [];
    var errors := title + description + keywords;
    InCheckOrder(title, description, keywords);
    Validation(|errors| == 0, errors)
  }

  /** Each problem is reported exactly when its condition holds. */
  lemma ValidationReports(data: SeoData)
    ensures var errors := ValidateSeoData(data).errors;
            && (TitleTooShort in errors <==> !Truthy(data.title) || |data.title.value| < 30)
            && (TitleTooLong in errors <==> Truthy(data.title) && |data.title.value| > 60)
            && (DescriptionTooShort in errors <==> !Truthy(data.description) || |data.description.value| < 120)
            && (DescriptionTooLong in errors <==> Truthy(data.description) && |data.description.value| > 160)
            && (TooFewKeywords in errors <==> data.keywords.None? || |data.keywords.value| < 5)
  {
  }

  /** At most one title problem, then at most one description problem, then
      at most one keyword problem are in check order. */
  lemma InCheckOrder(title: seq<SeoError>, description: seq<SeoError>, keywords: seq<SeoError>)
    requires |title| <= 1 && |description| <= 1 && |keywords| <= 1
    requires forall i :: 0 <= i < |title| ==> Rank(title[i]) <= 1
    requires forall i :: 0 <= i < |description| ==> 2 <= Rank(description[i]) <= 3
    requires forall i :: 0 <= i < |keywords| ==> Rank(keywords[i]) == 4
    ensures var errors := title + description + keywords;
            forall i, j :: 0 <= i < j < |errors| ==> Rank(errors[i]) < Rank(errors[j])
  {
  }

  // ---------------------------------------------------------------------------
  // generateCanonicalUrl, generateHreflangTags

  /** `path` without one leading `/`. */
  function DropSlash(path: string): (rest: string)
    ensures path == rest || path == "/" + rest
    ensures |path| > 0 && path[0] == '/' ==> "/" + rest == path
  {
    if |path| > 0 && path[0] == '/' then path[1..] else path
  }

  /** `path` with a leading `/` added when it lacks one. */
  function CleanPath(path: string): string {
    if |path| > 0 && path[0] == '/' then path else "/" + path
  }

  /** The `baseUrl` default parameter. */
  function BaseOr(baseUrl: Option<string>): string { baseUrl.GetOr(BaseUrl) }

  /** `generateCanonicalUrl(path, baseUrl)`. */
  function CanonicalUrl(path: string, baseUrl: Option<string>): (url: string)
    ensures url == BaseOr(baseUrl) + "/" + DropSlash(path)
    ensures |url| == |BaseOr(baseUrl)| + |path| + (if |path| > 0 && path[0] == '/' then 0 else 1)
  {
    BaseOr(baseUrl) + CleanPath(path)
  }

  datatype HreflangTag = HreflangTag(hreflang: string, href: string)

  /** `generateHreflangTags(path, baseUrl)`. */
  function HreflangTags(path: string, baseUrl: Option<string>): (tags: seq<HreflangTag>)
    ensures |tags| == 3
    ensures tags[0].hreflang == "en" && tags[1].hreflang == "ar" && tags[2].hreflang == "x-default"
    ensures tags[0].href == CanonicalUrl(path, baseUrl)
    ensures tags[1].href == BaseOr(baseUrl) + "/ar/" + DropSlash(path)
    ensures tags[2].href == tags[0].href
  {
    var base, cleanPath := BaseOr(baseUrl), CleanPath(path);
    assert base + "/ar" + cleanPath == base + "/ar/" + DropSlash(path);
    [ HreflangTag("en", base + cleanPath),
      HreflangTag("ar", base + "/ar" + cleanPath),
      HreflangTag("x-default", base + cleanPath) ]
  }

  // ---------------------------------------------------------------------------
  // The breadcrumb branch of generateStructuredData

  datatype Crumb = Crumb(name: string, url: string)

  /** A schema.org `ListItem`. */
  datatype ListItem = ListItem(position: nat, name: string, item: string)

  /** The list items of `items`, the first numbered `first`. */
  function ListItemsFrom(items: seq<Crumb>, first: nat): (r: seq<ListItem>)
    ensures |r| == |items|
    ensures forall i :: 0 <= i < |r| ==>
              r[i] == ListItem(first + i, items[i].name, BaseUrl + items[i].url)
  {
    if items == [] then []
    else [ListItem(first, items[0].name, BaseUrl + items[0].url)] + ListItemsFrom(items[1..], first + 1)
  }

  /** The `itemListElement` of a breadcrumb: positions count from 1 in list
      order and each item is the base URL followed by the crumb's URL. */
  function BreadcrumbItems(items: seq<Crumb>): (r: seq<ListItem>)
    ensures |r| == |items|
    ensures forall i :: 0 <= i < |r| ==> r[i].position == i + 1
    ensures forall i :: 0 <= i < |r| ==> r[i].name == items[i].name && r[i].item == BaseUrl + items[i].url
  {
    ListItemsFrom(items, 1)
  }
}
