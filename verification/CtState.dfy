/** `_normalize_ctstate`: sorting the list behind a flag in a printed line. */
module CtState {
  import opened Text
  import opened Firewall

  // ---------- sorting the list behind a flag ----------

  const CTSTATE := "--ctstate"

  /** A comma-separated list with its elements sorted. */
  function SortList(w: string): string {
    Join(Sort(Split(w, ',')), ",")
  }

  /** Whether the regular expression matches at the start: the flag, a blank and a word. */
  predicate FlagHere(s: string, flag: string) {
    flag + " " <= s && WordLen(s[|flag| + 1..]) > 0
  }

  /** Sorts the word after every occurrence of the flag and a blank, left to right. */
  function Normalize(s: string, flag: string): string
    decreases |s|
  {
    if s == "" then ""
    else if FlagHere(s, flag) then
      var rest := s[|flag| + 1..];
      flag + " " + (SortList(rest[..WordLen(rest)]) + Normalize(rest[WordLen(rest)..], flag))
    else [s[0]] + Normalize(s[1..], flag)
  }

  /** `_normalize_ctstate`. */
  function NormalizeCtstate(line: string): string {
    Normalize(line, CTSTATE)
  }

  predicate EndsWith(t: string, flag: string)
    decreases |t|
  {
    t == flag || (t != "" && EndsWith(t[1..], flag))
  }

  /** Normalizing, on the words of a line. */
  function NormalizeWords(ts: seq<string>, flag: string): seq<string>
    decreases |ts|
  {
    if ts == [] then []
    else if EndsWith(ts[0], flag) && |ts| > 1 then [ts[0]] + ([SortList(ts[1])] + NormalizeWords(ts[2..], flag))
    else [ts[0]] + NormalizeWords(ts[1..], flag)
  }

  predicate NoBlank(t: string) {
    forall c | c in t :: !IsSpace(c)
  }

  /** The flag can only be found where a word is exactly the flag. */
  lemma FlagIsAWord(t: string, rest: string, flag: string)
    requires NoBlank(t) && NoBlank(flag)
    ensures FlagHere(t + " " + rest, flag) <==> t == flag && WordLen(rest) > 0
  {
    var s, f := t + " " + rest, flag + " ";
    assert s[|t|] == ' ' && forall i | 0 <= i < |t| :: s[i] == t[i] && t[i] in t;
    assert f[|flag|] == ' ' && forall i | 0 <= i < |flag| :: f[i] == flag[i] && flag[i] in flag;
    if f <= s {
      assert s[..|f|] == f;
      assert forall i | 0 <= i < |f| :: s[i] == f[i];
      assert |t| == |flag|;
      assert t == s[..|t|] == f[..|t|] == flag;
    }
    if t == flag {
      assert s == f + rest;
      assert s[|flag| + 1..] == rest;
    }
  }

  function AfterFlag(rest: string, flag: string): string {
    var n := WordLen(rest);
    if n > 0 then SortList(rest[..n]) + Normalize(rest[n..], flag) else Normalize(rest, flag)
  }

  lemma NormalizeAtFlag(rest: string, flag: string)
    requires Token(flag) && WordLen(rest) > 0
    ensures Normalize(flag + " " + rest, flag) == flag + " " + AfterFlag(rest, flag)
  {
    FlagIsAWord(flag, rest, flag);
    var s := flag + " " + rest;
    assert s[|flag| + 1..] == rest;
  }

  lemma NormalizeStep(s: string, flag: string)
    requires s != "" && !FlagHere(s, flag)
    ensures Normalize(s, flag) == [s[0]] + Normalize(s[1..], flag)
  {
  }

  lemma NormalizePastChar(t: string, rest: string, flag: string)
    requires NoBlank(t) && Token(flag) && t != "" && !(t == flag && WordLen(rest) > 0)
    ensures Normalize(t + " " + rest, flag) == [t[0]] + Normalize(t[1..] + " " + rest, flag)
  {
    FlagIsAWord(t, rest, flag);
    NormalizeStep(t + " " + rest, flag);
    assert (t + " " + rest)[1..] == t[1..] + " " + rest;
  }

  lemma {:induction false} NormalizePastPlain(t: string, rest: string, flag: string)
    requires NoBlank(t) && Token(flag) && (EndsWith(t, flag) ==> WordLen(rest) == 0)
    ensures Normalize(t + " " + rest, flag) == t + " " + Normalize(rest, flag)
    decreases |t|
  {
    if t == "" {
      FlagIsAWord(t, rest, flag);
      NormalizeStep(t + " " + rest, flag);
      assert (t + " " + rest)[1..] == rest;
    } else {
      NormalizePastChar(t, rest, flag);
      NormalizePastPlain(t[1..], rest, flag);
      PrependChar(t, Normalize(rest, flag));
    }
  }

  lemma {:induction false} NormalizePastFlag(t: string, rest: string, flag: string)
    requires NoBlank(t) && Token(flag) && EndsWith(t, flag) && WordLen(rest) > 0
    ensures Normalize(t + " " + rest, flag) == t + " " + AfterFlag(rest, flag)
    decreases |t|
  {
    if t == flag {
      NormalizeAtFlag(rest, flag);
    } else {
      NormalizePastChar(t, rest, flag);
      NormalizePastFlag(t[1..], rest, flag);
      PrependChar(t, AfterFlag(rest, flag));
    }
  }

  /** Normalizing runs through one word and the blank behind it. */
  lemma NormalizePastWord(t: string, rest: string, flag: string)
    requires NoBlank(t) && Token(flag)
    ensures Normalize(t + " " + rest, flag) == t + " " + (if EndsWith(t, flag) then AfterFlag(rest, flag) else Normalize(rest, flag))
  {
    if EndsWith(t, flag) && WordLen(rest) > 0 {
      NormalizePastFlag(t, rest, flag);
    } else {
      NormalizePastPlain(t, rest, flag);
    }
  }

  lemma PrependChar(t: string, more: string)
    requires t != ""
    ensures [t[0]] + (t[1..] + " " + more) == t + " " + more
  {
  }

  lemma {:induction false} NormalizeLastWord(t: string, flag: string)
    requires NoBlank(t)
    ensures Normalize(t, flag) == t
    decreases |t|
  {
    if t != "" {
      assert (flag + " ")[|flag|] == ' ';
      assert |t| > |flag| ==> t[|flag|] in t;
      NormalizeLastWord(t[1..], flag);
    }
  }

  lemma UnwordsCons(t: string, ts: seq<string>)
    ensures Unwords([t] + ts) == t + if ts == [] then "" else " " + Unwords(ts)
  {
    assert ([t] + ts)[1..] == ts;
  }

  /** On a line of words, normalizing the text is normalizing the words. */
  lemma {:induction false} NormalizeByWords(ts: seq<string>, flag: string)
    requires Tokens(ts) && Token(flag)
    ensures Normalize(Unwords(ts), flag) == Unwords(NormalizeWords(ts, flag))
    decreases |ts|
  {
    if |ts| == 1 {
      assert ts[0] in ts;
      NormalizeLastWord(ts[0], flag);
      assert ts[1..] == [];
    } else if |ts| > 1 {
      assert ts[0] in ts;
      NormalizePastWord(ts[0], Unwords(ts[1..]), flag);
      if EndsWith(ts[0], flag) {
        AfterFlagByWords(ts[1..], flag);
        UnwordsCons(ts[0], [SortList(ts[1])] + NormalizeWords(ts[2..], flag));
        assert ts[1..][1..] == ts[2..];
      } else {
        NormalizeByWords(ts[1..], flag);
        UnwordsCons(ts[0], NormalizeWords(ts[1..], flag));
      }
    }
  }

  lemma NormalizeBlank(rest: string, flag: string)
    requires Token(flag)
    ensures Normalize(" " + rest, flag) == " " + Normalize(rest, flag)
  {
    hide Normalize, AfterFlag;
    NormalizePastWord("", rest, flag);
    assert "" + " " + rest == " " + rest;
  }

  /** The word behind the flag is sorted, and the rest of the line goes on. */
  lemma AfterFlagOf(t: string, after: string, flag: string)
    requires Token(t) && (after != "" ==> IsSpace(after[0]))
    ensures AfterFlag(t + after, flag) == SortList(t) + Normalize(after, flag)
  {
    hide SortList, Normalize;
    WordLenOfToken(t, after);
    assert (t + after)[..|t|] == t && (t + after)[|t|..] == after;
  }

  lemma NormalizeNothing(flag: string)
    ensures Normalize("", flag) == ""
  {
  }

  lemma {:induction false} AfterFlagByWords(ts: seq<string>, flag: string)
    requires Tokens(ts) && ts != [] && Token(flag)
    ensures AfterFlag(Unwords(ts), flag) == Unwords([SortList(ts[0])] + NormalizeWords(ts[1..], flag))
    decreases |ts|
  {
    hide SortList, AfterFlag, Normalize;
    assert ts[0] in ts;
    UnwordsCons(SortList(ts[0]), NormalizeWords(ts[1..], flag));
    if |ts| == 1 {
      assert ts[1..] == [] && ts[0] + "" == ts[0];
      AfterFlagOf(ts[0], "", flag);
      NormalizeNothing(flag);
    } else {
      AfterFlagOf(ts[0], " " + Unwords(ts[1..]), flag);
      assert Unwords(ts) == ts[0] + (" " + Unwords(ts[1..]));
      NormalizeBlank(Unwords(ts[1..]), flag);
      NormalizeByWords(ts[1..], flag);
    }
  }

  // ---------- lines that normalizing leaves alone ----------

  lemma SortListOfOne(w: string)
    requires ',' !in w
    ensures SortList(w) == w
  {
    assert Find(w, ',') == |w|;
    assert Sort([w]) == [w] by { assert [w][1..] == []; }
  }

  /** No word that follows the flag is a list. */
  predicate Calm(ts: seq<string>, flag: string)
    decreases |ts|
  {
    |ts| < 2 || ((EndsWith(ts[0], flag) ==> ',' !in ts[1]) && Calm(ts[1..], flag))
  }

  lemma {:induction false} CalmIsNormal(ts: seq<string>, flag: string)
    requires Calm(ts, flag)
    ensures NormalizeWords(ts, flag) == ts
    decreases |ts|
  {
    hide EndsWith;
    if |ts| > 1 && EndsWith(ts[0], flag) {
      SortListOfOne(ts[1]);
      assert ts[1..][1..] == ts[2..];
      CalmIsNormal(ts[2..], flag);
      assert ts == [ts[0]] + ([ts[1]] + ts[2..]);
    } else if ts != [] {
      CalmIsNormal(ts[1..], flag);
      assert ts == [ts[0]] + ts[1..];
    }
  }

  predicate Quiet(t: string, flag: string) {
    !EndsWith(t, flag) && ',' !in t
  }

  lemma {:induction false} ShortIsNotFlag(t: string, flag: string)
    requires |t| < |flag|
    ensures !EndsWith(t, flag)
  {
    if t != "" { ShortIsNotFlag(t[1..], flag); }
  }

  lemma {:induction false} OptionsAreCalm(opts: seq<Opt>, tail: seq<string>, flag: string)
    requires (forall o | o in opts :: Quiet(o.0, flag)) && tail != [] && Quiet(tail[0], flag) && Calm(tail, flag)
    ensures var ts := Flatten(opts) + tail; Calm(ts, flag) && Quiet(ts[0], flag)
  {
    if opts == [] {
      assert Flatten(opts) + tail == tail;
    } else {
      assert opts[0] in opts;
      OptionsAreCalm(opts[1..], tail, flag);
      var more := Flatten(opts[1..]) + tail;
      var ts := Flatten(opts) + tail;
      assert ts == [opts[0].0, opts[0].1] + more;
      assert ts[1..] == [opts[0].1] + more && ts[1..][1..] == more;
    }
  }

  lemma {:induction false} NormalizePastQuiet(q: seq<string>, rest: seq<string>, flag: string)
    requires forall t | t in q :: !EndsWith(t, flag)
    ensures NormalizeWords(q + rest, flag) == q + NormalizeWords(rest, flag)
  {
    hide EndsWith, SortList;
    if q == [] {
      assert q + rest == rest;
    } else {
      assert q[0] in q;
      assert (q + rest)[1..] == q[1..] + rest;
      NormalizePastQuiet(q[1..], rest, flag);
    }
  }

  lemma SortListOfJoin(states: seq<string>)
    requires |states| > 0 && forall s | s in states :: ',' !in s
    ensures SortList(Join(states, ",")) == Join(Sort(states), ",")
  {
    SplitOfJoin(states, ',');
    assert [','] == ",";
  }

  lemma NormalizeListed(q: seq<string>, v: string, tail: seq<string>, flag: string)
    requires (forall t | t in q :: !EndsWith(t, flag)) && forall t | t in tail :: !EndsWith(t, flag)
    ensures NormalizeWords(q + ([flag, v] + tail), flag) == q + ([flag, SortList(v)] + tail)
  {
    hide SortList;
    var body := [flag, v] + tail;
    NormalizePastQuiet(q, body, flag);
    NormalizePastQuiet(tail, [], flag);
    assert tail + [] == tail;
    assert body[2..] == tail;
    assert [flag] + ([SortList(v)] + tail) == [flag, SortList(v)] + tail;
  }

  /** However the listed states are ordered, the normalized line is the same. */
  lemma NormalForgetsOrder(q: seq<string>, states: seq<string>, tail: seq<string>, flag: string)
    requires Tokens(q) && Tokens(tail) && Token(flag)
    requires (forall t | t in q :: !EndsWith(t, flag)) && forall t | t in tail :: !EndsWith(t, flag)
    requires |states| > 0 && (forall s | s in states :: ',' !in s) && Token(Join(states, ","))
    ensures Normalize(Unwords(q + ([flag, Join(states, ",")] + tail)), flag) == Unwords(q + ([flag, Join(Sort(states), ",")] + tail))
  {
    NormalizeByWords(q + ([flag, Join(states, ",")] + tail), flag);
    NormalizeListed(q, Join(states, ","), tail, flag);
    SortListOfJoin(states);
  }
}
