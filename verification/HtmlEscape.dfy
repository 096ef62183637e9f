/** The HTML escape: five ordered replacements as one simultaneous substitution, and its inverse. */
module HtmlEscape {
  import opened Text

  /** `s.replace(c, with)` for a pattern of one character. */
  function Replace(s: string, c: char, with: string): string {
    if s == "" then "" else (if s[0] == c then with else [s[0]]) + Replace(s[1..], c, with)
  }

  /** `escape` of a string. */
  function Escape(s: string, quote: bool): string {
    var a := Replace(s, '&', "&amp;");
    var b := Replace(a, '<', "&lt;");
    var c := Replace(b, '>', "&gt;");
    if quote then Replace(Replace(c, '\"', "&quot;"), '\'', "&#x27;") else c
  }

  /** `escape` keeps `None`. */
  function EscapeOption(s: Option<string>, quote: bool): Option<string> {
    if s.None? then None else Some(Escape(s.value, quote))
  }

  // ---------- substitution, all at once ----------

  function Entity(c: char, quote: bool): string {
    if c == '&' then "&amp;"
    else if c == '<' then "&lt;"
    else if c == '>' then "&gt;"
    else if c == '\"' && quote then "&quot;"
    else if c == '\'' && quote then "&#x27;"
    else [c]
  }

  /** Every character substituted, independently of the others. */
  function Each(s: string, f: char -> string): string {
    if s == "" then "" else f(s[0]) + Each(s[1..], f)
  }

  lemma Rejoin(x: string, y: string, z: string)
    ensures x + (y + z) == (x + y) + z
  {
  }

  lemma {:induction false} ReplaceSum(a: string, b: string, c: char, with: string)
    ensures Replace(a + b, c, with) == Replace(a, c, with) + Replace(b, c, with)
  {
    if a == "" {
      assert a + b == b;
    } else {
      ReplaceSum(a[1..], b, c, with);
      assert (a + b)[1..] == a[1..] + b;
      Rejoin(if a[0] == c then with else [a[0]], Replace(a[1..], c, with), Replace(b, c, with));
    }
  }

  /** A replacement after a substitution is a substitution. */
  lemma {:induction false} ReplaceEach(s: string, f: char -> string, c: char, with: string)
    ensures Replace(Each(s, f), c, with) == Each(s, x => Replace(f(x), c, with))
  {
    if s != "" {
      ReplaceEach(s[1..], f, c, with);
      ReplaceSum(f(s[0]), Each(s[1..], f), c, with);
    }
  }

  lemma {:induction false} EachSame(s: string, f: char -> string, g: char -> string)
    requires forall c :: f(c) == g(c)
    ensures Each(s, f) == Each(s, g)
  {
    if s != "" { EachSame(s[1..], f, g); }
  }

  lemma {:induction false} EachSelf(s: string)
    ensures Each(s, c => [c]) == s
  {
    if s != "" {
      EachSelf(s[1..]);
      assert s == [s[0]] + s[1..];
    }
  }

  lemma {:induction false} ReplaceAbsent(s: string, c: char, with: string)
    requires c !in s
    ensures Replace(s, c, with) == s
  {
    if s != "" { ReplaceAbsent(s[1..], c, with); }
  }

  lemma ReplaceOne(x: char, c: char, with: string)
    ensures Replace([x], c, with) == if x == c then with else [x]
  {
    assert [x][1..] == "";
    assert Replace([x], c, with) == (if x == c then with else [x]) + Replace("", c, with);
  }

  /** One more character replaced: the entities so far, and the rest, do not contain it. */
  lemma OneMore(s: string, f: char -> string, g: char -> string, c: char, with: string)
    requires f(c) == [c] && g(c) == with && forall x | x != c :: c !in f(x) && g(x) == f(x)
    ensures Replace(Each(s, f), c, with) == Each(s, g)
  {
    var h := x => Replace(f(x), c, with);
    ReplaceEach(s, f, c, with);
    forall x ensures h(x) == g(x) {
      if x == c { ReplaceOne(c, c, with); } else { ReplaceAbsent(f(x), c, with); }
    }
    EachSame(s, h, g);
  }

  /** The entities of the first n replacements. */
  function Stage(n: nat): char -> string {
    (c: char) =>
      if n >= 1 && c == '&' then "&amp;"
      else if n >= 2 && c == '<' then "&lt;"
      else if n >= 3 && c == '>' then "&gt;"
      else if n >= 4 && c == '\"' then "&quot;"
      else if n >= 5 && c == '\'' then "&#x27;"
      else [c]
  }

  lemma FirstTwo(s: string)
    ensures Replace(Replace(s, '&', "&amp;"), '<', "&lt;") == Each(s, Stage(2))
  {
    hide Replace, Each;
    EachSelf(s);
    EachSame(s, c => [c], Stage(0));
    OneMore(s, Stage(0), Stage(1), '&', "&amp;");
    OneMore(s, Stage(1), Stage(2), '<', "&lt;");
  }

  lemma LastTwo(s: string)
    ensures Replace(Replace(Each(s, Stage(3)), '\"', "&quot;"), '\'', "&#x27;") == Each(s, Stage(5))
  {
    hide Replace, Each;
    OneMore(s, Stage(3), Stage(4), '\"', "&quot;");
    OneMore(s, Stage(4), Stage(5), '\'', "&#x27;");
  }

  /** The replacements in order substitute each character at once. */
  lemma EscapeIsSimultaneous(s: string, quote: bool)
    ensures Escape(s, quote) == Each(s, c => Entity(c, quote))
  {
    hide Replace, Each;
    FirstTwo(s);
    OneMore(s, Stage(2), Stage(3), '>', "&gt;");
    LastTwo(s);
    EachSame(s, Stage(if quote then 5 else 3), c => Entity(c, quote));
  }

  // ---------- what the output contains ----------

  predicate Special(c: char, quote: bool) {
    c == '<' || c == '>' || (quote && (c == '\"' || c == '\''))
  }

  predicate StartsEntity(s: string) {
    "&amp;" <= s || "&lt;" <= s || "&gt;" <= s || "&quot;" <= s || "&#x27;" <= s
  }

  /** No special character is left raw, and every ampersand starts an entity. */
  ghost predicate Safe(s: string, quote: bool) {
    (forall c | c in s :: !Special(c, quote)) && forall i | 0 <= i < |s| && s[i] == '&' :: StartsEntity(s[i..])
  }

  lemma EntityIsSafe(c: char, quote: bool)
    ensures var e := Entity(c, quote);
            && e != "" && (forall x | x in e :: !Special(x, quote))
            && (e[0] == '&' ==> StartsEntity(e)) && forall i | 0 < i < |e| :: e[i] != '&'
  {
  }

  lemma StartsEntityLonger(a: string, b: string)
    requires StartsEntity(a)
    ensures StartsEntity(a + b)
  {
  }

  lemma SafeAfter(e: string, rest: string, quote: bool)
    requires e != "" && (forall x | x in e :: !Special(x, quote))
    requires (e[0] == '&' ==> StartsEntity(e)) && forall i | 0 < i < |e| :: e[i] != '&'
    requires Safe(rest, quote)
    ensures Safe(e + rest, quote)
  {
    hide Special, StartsEntity;
    var s := e + rest;
    forall i | 0 <= i < |s| && s[i] == '&' ensures StartsEntity(s[i..]) {
      if i == 0 {
        StartsEntityLonger(e, rest);
        assert s[0..] == s;
      } else {
        assert s[i..] == rest[i - |e|..];
      }
    }
  }

  lemma {:induction false} EachIsSafe(s: string, quote: bool)
    ensures Safe(Each(s, c => Entity(c, quote)), quote)
  {
    hide Entity, Safe;
    if s == "" {
      NothingIsSafe(quote);
    } else {
      EachIsSafe(s[1..], quote);
      EntityIsSafe(s[0], quote);
      SafeAfter(Entity(s[0], quote), Each(s[1..], c => Entity(c, quote)), quote);
    }
  }

  lemma NothingIsSafe(quote: bool)
    ensures Safe("", quote)
  {
  }

  lemma EscapeIsSafe(s: string, quote: bool)
    ensures Safe(Escape(s, quote), quote)
  {
    hide Safe, Escape, Each;
    EscapeIsSimultaneous(s, quote);
    EachIsSafe(s, quote);
  }

  // ---------- decoding ----------

  /** The character that an entity at the start of a text stands for, and the entity's length. */
  function Leading(s: string): (lead: (char, nat))
    requires s != ""
    ensures 1 <= lead.1 <= |s|
  {
    if "&amp;" <= s then ('&', 5)
    else if "&lt;" <= s then ('<', 4)
    else if "&gt;" <= s then ('>', 4)
    else if "&quot;" <= s then ('\"', 6)
    else if "&#x27;" <= s then ('\'', 6)
    else (s[0], 1)
  }

  /** Entities decoded from left to right. */
  function Unescape(s: string): string {
    if s == "" then "" else [Leading(s).0] + Unescape(s[Leading(s).1..])
  }

  lemma LeadingOfEntity(c: char, quote: bool, rest: string)
    ensures Leading(Entity(c, quote) + rest) == (c, |Entity(c, quote)|)
  {
    var e := Entity(c, quote);
    var s := e + rest;
    assert s[..|e|] == e;
    if |e| == 1 {
      assert s[0] == c && c != '&';
    } else {
      assert s[1] == e[1] && s[2] == e[2];
    }
  }

  lemma {:induction false} UnescapeEach(s: string, quote: bool)
    ensures Unescape(Each(s, c => Entity(c, quote))) == s
  {
    hide Entity, Leading;
    if s != "" {
      var e, rest := Entity(s[0], quote), Each(s[1..], c => Entity(c, quote));
      EntityIsSafe(s[0], quote);
      LeadingOfEntity(s[0], quote, rest);
      assert (e + rest)[|e|..] == rest;
      UnescapeEach(s[1..], quote);
      assert s == [s[0]] + s[1..];
    }
  }

  /** Decoding recovers every escaped text. */
  lemma UnescapeRecovers(s: string, quote: bool)
    ensures Unescape(Escape(s, quote)) == s
  {
    hide Escape, Each, Unescape;
    EscapeIsSimultaneous(s, quote);
    UnescapeEach(s, quote);
  }

  /** No two values are escaped alike, and `None` is escaped like no text. */
  lemma EscapeIsInjective(s: Option<string>, t: Option<string>, quote: bool)
    requires EscapeOption(s, quote) == EscapeOption(t, quote)
    ensures s == t
  {
    hide Escape, Unescape;
    if s.Some? && t.Some? {
      UnescapeRecovers(s.value, quote);
      UnescapeRecovers(t.value, quote);
    }
  }

  // ---------- why the ampersand comes first ----------

  /** The same replacements with the ampersand last. */
  function AmpersandLast(s: string): string {
    Replace(Replace(Replace(s, '<', "&lt;"), '>', "&gt;"), '&', "&amp;")
  }

  predicate Angled(s: string) {
    '<' in s || '>' in s
  }

  lemma LateEach(s: string)
    ensures AmpersandLast(s) == Each(s, c => Late(c))
  {
    hide Replace, Each;
    var f0, f1, f2 := (c: char) => [c], (c: char) => if c == '<' then "&lt;" else [c], (c: char) => Angle(c);
    EachSelf(s);
    OneMore(s, f0, f1, '<', "&lt;");
    OneMore(s, f1, f2, '>', "&gt;");
    var h := x => Replace(f2(x), '&', "&amp;");
    ReplaceEach(s, f2, '&', "&amp;");
    forall x ensures h(x) == Late(x) {
      LateIs(x);
    }
    EachSame(s, h, c => Late(c));
  }

  function Angle(c: char): string {
    if c == '<' then "&lt;" else if c == '>' then "&gt;" else [c]
  }

  function Late(c: char): string {
    if c == '<' then "&amp;lt;" else if c == '>' then "&amp;gt;" else if c == '&' then "&amp;" else [c]
  }

  lemma LateIs(x: char)
    ensures Replace(Angle(x), '&', "&amp;") == Late(x)
  {
    if x == '<' || x == '>' {
      var tail := Angle(x)[1..];
      ReplaceAbsent(tail, '&', "&amp;");
      assert Replace(Angle(x), '&', "&amp;") == "&amp;" + tail;
    } else {
      ReplaceOne(x, '&', "&amp;");
    }
  }

  lemma {:induction false} LateIsLonger(s: string)
    ensures |Each(s, c => Late(c))| >= |Each(s, c => Entity(c, false))|
    ensures Each(s, c => Late(c)) == Each(s, c => Entity(c, false)) <==> !Angled(s)
  {
    if s != "" {
      LateIsLonger(s[1..]);
      assert Angled(s) <==> s[0] == '<' || s[0] == '>' || Angled(s[1..]) by {
        assert s == [s[0]] + s[1..];
      }
      var a, b := Each(s[1..], c => Late(c)), Each(s[1..], c => Entity(c, false));
      assert |Late(s[0])| >= |Entity(s[0], false)|;
      if s[0] != '<' && s[0] != '>' {
        assert (Late(s[0]) + a)[|Late(s[0])|..] == a && (Late(s[0]) + b)[|Late(s[0])|..] == b;
      }
    }
  }

  /** With the ampersand last the result is right exactly for texts without angle brackets. */
  lemma OrderMatters(s: string)
    ensures AmpersandLast(s) == Escape(s, false) <==> !Angled(s)
  {
    hide AmpersandLast, Escape, Each, Angled;
    LateEach(s);
    LateIsLonger(s);
    EscapeIsSimultaneous(s, false);
  }
}
