/** `components/LanguageInitializer.jsx`: on mount and on every language
    change, the document takes the translation instance's language and its
    writing direction, and the body's class list is given the direction as a
    class. Class names are parsed and serialised as a DOM token list: split
    at ASCII whitespace, duplicates dropped, tokens joined by single
    spaces. */
module LanguageInitializer {
  import opened Wrappers
  import opened Strings
  import Lists

  /** `i18n.language || "ar"`. */
  function LangOf(language: Option<string>): (lang: string)
    ensures Truthy(language) ==> lang == language.value
    ensures !Truthy(language) ==> lang == "ar"
  {
    if Truthy(language) then language.value else "ar"
  }

  /** The writing direction: right-to-left exactly for Arabic. */
  function DirOf(lang: string): (dir: string)
    ensures dir == "rtl" <==> lang == "ar"
    ensures dir == "ltr" <==> lang != "ar"
  {
    if lang == "ar" then "rtl" else "ltr"
  }

  // ---------------------------------------------------------------------
  // Class lists

  /** The whitespace a class attribute is split at. */
  predicate IsAsciiSpace(c: char) {
    c == ' ' || c == '\t' || c == '\n' || c == '\U{000C}' || c == '\r'
  }

  /** A class name: non-empty, without whitespace. */
  predicate IsToken(t: string) {
    t != [] && forall k :: 0 <= k < |t| ==> !IsAsciiSpace(t[k])
  }

  /** The length of the class name `s` starts with. */
  function TokenEnd(s: string): (n: nat)
    requires s != [] && !IsAsciiSpace(s[0])
    ensures 0 < n <= |s|
    ensures forall k :: 0 <= k < n ==> !IsAsciiSpace(s[k])
    ensures n < |s| ==> IsAsciiSpace(s[n])
  {
    if |s| == 1 || IsAsciiSpace(s[1]) then 1 else 1 + TokenEnd(s[1..])
  }

  /** The class names in a class attribute, in order. */
  function Tokens(s: string): (ts: seq<string>)
    ensures forall i :: 0 <= i < |ts| ==> IsToken(ts[i])
    decreases |s|
  {
    if s == [] then []
    else if IsAsciiSpace(s[0]) then Tokens(s[1..])
    else
      var n := TokenEnd(s);
      [s[..n]] + Tokens(s[n..])
  }

  /** Parsing the serialisation of class names gives them back. */
  lemma {:induction false} TokensOfJoin(ts: seq<string>)
    requires forall i :: 0 <= i < |ts| ==> IsToken(ts[i])
    ensures Tokens(Join(ts, " ")) == ts
  {
    if |ts| == 1 {
      var t := ts[0];
      assert Join(ts, " ") == t;
      assert TokenEnd(t) == |t|;
      assert t[..|t|] == t && t[|t|..] == [];
      assert Tokens(t) == [t[..TokenEnd(t)]] + Tokens(t[TokenEnd(t)..]);
    } else if |ts| > 1 {
      var t := ts[0];
      var rest := Join(ts[1..], " ");
      var s := t + " " + rest;
      assert s[|t|] == ' ';
      assert forall k :: 0 <= k < |t| ==> s[k] == t[k];
      assert TokenEnd(s) == |t|;
      assert s[..|t|] == t;
      assert s[|t|..] == " " + rest;
      assert (" " + rest)[1..] == rest;
      TokensOfJoin(ts[1..]);
      assert Tokens(s) == [t] + Tokens(rest);
      assert ts == [t] + ts[1..];
    }
  }

  /** The class list after `classList.add(token)`. */
  function AddToken(ts: seq<string>, t: string): (r: seq<string>)
    ensures t in r
    ensures forall x :: x in ts ==> x in r
  {
    if t in ts then ts else ts + [t]
  }

  /** Neither of the two direction classes. */
  predicate NotDirection(t: string) {
    t != "rtl" && t != "ltr"
  }

  // ---------------------------------------------------------------------
  // The body class as the source rewrites it

  /** "rtl" or "ltr" starts at index `i` of `s`. */
  predicate DirAt(s: string, i: int) {
    0 <= i && i + 3 <= |s| && (s[i..i + 3] == "rtl" || s[i..i + 3] == "ltr")
  }

  /** `s.replace(/rtl|ltr/g, "")`: every occurrence of "rtl" or "ltr",
      found left to right without overlap, is removed, inside other class
      names too. */
  function RemoveDirSubstrings(s: string): (r: string)
    ensures |r| <= |s| && (|s| - |r|) % 3 == 0
  {
    if |s| >= 3 && (s[..3] == "rtl" || s[..3] == "ltr") then RemoveDirSubstrings(s[3..])
    else if s == [] then []
    else [s[0]] + RemoveDirSubstrings(s[1..])
  }

  /** A class attribute in which neither substring occurs is left as it
      is. */
  lemma {:induction false} RemoveDirSubstringsIdentity(s: string)
    requires forall i :: 0 <= i < |s| ==> !DirAt(s, i)
    ensures RemoveDirSubstrings(s) == s
  {
    if s != [] {
      assert !DirAt(s, 0);
      forall i | 0 <= i < |s[1..]| ensures !DirAt(s[1..], i) {
        if DirAt(s[1..], i) {
          assert s[1..][i..i + 3] == s[i + 1..i + 4];
          assert DirAt(s, i + 1);
        }
      }
      RemoveDirSubstringsIdentity(s[1..]);
      assert s == [s[0]] + s[1..];
    }
  }

  /** The body class after the source's update: the substrings removed,
      then the direction added as a class. Its classes are the direction
      and the classes of the stripped attribute, each once. */
  function BodyClassAsWritten(className: string, dir: string): (r: string)
    requires dir in {"rtl", "ltr"}
    ensures dir in Tokens(r)
    ensures forall t :: t in Tokens(r) <==> t == dir || t in Tokens(RemoveDirSubstrings(className))
    ensures Lists.NoDuplicates(Tokens(r))
  {
    var stripped := Tokens(RemoveDirSubstrings(className));
    var ts := AddToken(Lists.Distinct(stripped), dir);
    assert forall i :: 0 <= i < |ts| ==> IsToken(ts[i]) by {
      forall i | 0 <= i < |ts| ensures IsToken(ts[i]) {
        if ts[i] != dir {
          assert ts[i] in stripped;
        }
      }
    }
    TokensOfJoin(ts);
    assert Lists.NoDuplicates(ts) by {
      if dir !in Lists.Distinct(stripped) {
        Lists.NoDuplicatesAppend(Lists.Distinct(stripped), dir);
      }
    }
    Join(ts, " ")
  }

  /** Stripping the direction substrings cuts "ltr" out of "ultra". */
  lemma StripsInsideUltra()
    ensures RemoveDirSubstrings("ultra") == "ua"
  {
    assert RemoveDirSubstrings("a") == "a" by {
      assert "a"[1..] == [];
    }
    assert RemoveDirSubstrings("ltra") == "a" by {
      assert "ltra"[..3] == "ltr" && "ltra"[3..] == "a";
    }
    assert "ultra"[..3] == "ult" && "ultra"[1..] == "ltra";
  }

  /** The class attribute "ua" holds the one class "ua". */
  lemma TokensOfUa()
    ensures Tokens("ua") == ["ua"]
  {
    var t := "ua";
    assert TokenEnd(t) == 2 by {
      assert t[1..] == "a";
    }
    assert t[..2] == "ua" && t[2..] == [];
  }

  /** The class names the source's update leaves on a body whose class is
      "ultra". */
  lemma AsWrittenUltraTokens()
    ensures AddToken(Lists.Distinct(Tokens(RemoveDirSubstrings("ultra"))), "rtl") == ["ua", "rtl"]
  {
    StripsInsideUltra();
    TokensOfUa();
    assert Lists.Distinct(["ua"]) == ["ua"] by {
      assert ["ua"][..0] == [];
    }
    assert "rtl" !in ["ua"];
  }

  /** The serialisation of the class names "ua" and "rtl", and its parse. */
  lemma UaRtlRoundTrip()
    ensures Join(["ua", "rtl"], " ") == "ua rtl"
    ensures Tokens("ua rtl") == ["ua", "rtl"]
  {
    var ts := ["ua", "rtl"];
    assert ts[1..] == ["rtl"];
    assert IsToken(ts[0]) && IsToken(ts[1]);
    TokensOfJoin(ts);
  }

  /** But it also cuts the letters "ltr" or "rtl" out of any other class:
      a body class "ultra" switched to right-to-left becomes "ua rtl",
      losing the class "ultra". */
  lemma AsWrittenManglesOtherClasses()
    ensures BodyClassAsWritten("ultra", "rtl") == "ua rtl"
    ensures "ultra" !in Tokens(BodyClassAsWritten("ultra", "rtl"))
  {
    AsWrittenUltraTokens();
    UaRtlRoundTrip();
    assert "ultra" != "ua" && "ultra" != "rtl";
  }

  // ---------------------------------------------------------------------
  // The body class as intended

  /** The classes other than the direction classes, without repeats and in
      order. */
  function KeptTokens(className: string): (kept: seq<string>)
    ensures Lists.NoDuplicates(kept)
    ensures forall i :: 0 <= i < |kept| ==> IsToken(kept[i]) && NotDirection(kept[i])
  {
    var toks := Tokens(className);
    var distinct := Lists.Distinct(toks);
    Lists.FilterNoDuplicates(distinct, NotDirection);
    var kept := Lists.Filter(distinct, NotDirection);
    assert forall i :: 0 <= i < |kept| ==> IsToken(kept[i]) by {
      forall i | 0 <= i < |kept| ensures IsToken(kept[i]) {
        var j :| 0 <= j < |distinct| && distinct[j] == kept[i];
        var k :| 0 <= k < |toks| && toks[k] == distinct[j];
      }
    }
    kept
  }

  /** The class names once the direction classes are replaced: the other
      classes, without repeats and in order, then the direction. */
  function DirectionTokens(className: string, dir: string): (ts: seq<string>)
    requires dir in {"rtl", "ltr"}
    ensures ts == KeptTokens(className) + [dir]
    ensures Lists.NoDuplicates(ts)
    ensures forall i :: 0 <= i < |ts| ==> IsToken(ts[i])
  {
    var kept := KeptTokens(className);
    Lists.NoDuplicatesAppend(kept, dir);
    kept + [dir]
  }

  /** `classList.remove("rtl", "ltr"); classList.add(dir)`: only the
      direction classes are replaced. */
  function BodyClass(className: string, dir: string): (r: string)
    requires dir in {"rtl", "ltr"}
    ensures Tokens(r) == DirectionTokens(className, dir)
  {
    var ts := DirectionTokens(className, dir);
    TokensOfJoin(ts);
    Join(ts, " ")
  }

  /** After the update the body carries the new direction and not the
      other, and keeps every other class it had. */
  lemma BodyClassReplacesDirection(className: string, dir: string)
    requires dir in {"rtl", "ltr"}
    ensures dir in Tokens(BodyClass(className, dir))
    ensures forall t :: t in Tokens(BodyClass(className, dir)) && t != dir ==> NotDirection(t)
    ensures forall t :: t in Tokens(className) && NotDirection(t) ==> t in Tokens(BodyClass(className, dir))
  {
    var ts := Lists.Distinct(Tokens(className));
    assert forall t :: t in Tokens(className) && NotDirection(t) ==> t in Lists.Filter(ts, NotDirection) by {
      forall t | t in Tokens(className) && NotDirection(t) ensures t in Lists.Filter(ts, NotDirection) {
        var i :| 0 <= i < |Tokens(className)| && Tokens(className)[i] == t;
        var j :| 0 <= j < |ts| && ts[j] == t;
      }
    }
  }

  /** Re-reading the class list an update wrote: the kept classes come
      back, and the direction class is dropped again. */
  lemma {:induction false} KeptAfterUpdate(kept: seq<string>, dir: string)
    requires dir in {"rtl", "ltr"}
    requires kept + [dir] == Tokens(Join(kept + [dir], " "))
    requires Lists.NoDuplicates(kept + [dir])
    requires forall i :: 0 <= i < |kept| ==> NotDirection(kept[i])
    ensures KeptTokens(Join(kept + [dir], " ")) == kept
  {
    var ts := kept + [dir];
    Lists.DistinctIdentity(ts);
    assert KeptTokens(Join(ts, " ")) == Lists.Filter(ts, NotDirection);
    Lists.FilterAppend(kept, [dir], NotDirection);
    Lists.FilterAll(kept, NotDirection);
    assert Lists.Filter([dir], NotDirection) == [] by {
      assert [dir][1..] == [];
    }
    assert kept + [] == kept;
  }

  /** Only the last update counts: switching the direction again gives what
      switching once to the final direction gives, and repeating an update
      changes nothing. */
  lemma BodyClassLastWins(className: string, d1: string, d2: string)
    requires d1 in {"rtl", "ltr"} && d2 in {"rtl", "ltr"}
    ensures BodyClass(BodyClass(className, d1), d2) == BodyClass(className, d2)
  {
    var kept := KeptTokens(className);
    var ts := DirectionTokens(className, d1);
    TokensOfJoin(ts);
    KeptAfterUpdate(kept, d1);
  }

  /** The document: its language and direction attributes and the body's
      class attribute. */
  class HtmlDocument {
    var lang: string
    var dir: string
    var bodyClass: string

    constructor (lang: string, dir: string, bodyClass: string)
      ensures this.lang == lang && this.dir == dir && this.bodyClass == bodyClass
    {
      this.lang := lang;
      this.dir := dir;
      this.bodyClass := bodyClass;
    }

    /** `updateHtmlAttributes()`, run on mount and on every
        `languageChanged` event, for the translation instance's language at
        that moment. The body class is rewritten with the corrected
        `BodyClass`, which removes only the direction classes; the source's
        substring replacement is `BodyClassAsWritten`, which also cuts
        "rtl" and "ltr" out of other class names. */
    method UpdateHtmlAttributes(language: Option<string>)
      modifies this
      ensures lang == LangOf(language) && dir == DirOf(lang)
      ensures bodyClass == BodyClass(old(bodyClass), dir)
    {
      var l := LangOf(language);
      var d := DirOf(l);
      lang := l;
      dir := d;
      bodyClass := BodyClass(bodyClass, d);
    }
  }
}
