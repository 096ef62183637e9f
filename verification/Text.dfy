/** Strings as the Python code handles them: words, lines, separated lists and sorting. */
module Text {

  datatype Option<+T> = None | Some(value: T)

  datatype Result<+T> = Ok(value: T) | Err(error: string)

  type Byte = b: int | 0 <= b < 256

  type Bytes = seq<Byte>

  // ---------- words ----------

  /** The ASCII characters that `str.split()` and the regular-expression class `\s` treat as blank. */
  predicate IsSpace(c: char) {
    c == ' ' || c == '\t' || c == '\n' || c == '\r' || c == '\U{b}' || c == '\U{c}'
  }

  predicate Token(t: string) {
    t != "" && forall c | c in t :: !IsSpace(c)
  }

  predicate Tokens(ts: seq<string>) {
    forall t | t in ts :: Token(t)
  }

  /** Length of the longest blank-free prefix. */
  function WordLen(s: string): (n: nat)
    ensures n <= |s|
    ensures forall i | 0 <= i < n :: !IsSpace(s[i])
    ensures n < |s| ==> IsSpace(s[n])
  {
    if s == "" || IsSpace(s[0]) then 0 else 1 + WordLen(s[1..])
  }

  /** `s.split()`. */
  function Words(s: string): seq<string>
    decreases |s|
  {
    if s == "" then []
    else if IsSpace(s[0]) then Words(s[1..])
    else [s[..WordLen(s)]] + Words(s[WordLen(s)..])
  }

  /** `" ".join(ts)`. */
  function Unwords(ts: seq<string>): string {
    if |ts| == 0 then "" else if |ts| == 1 then ts[0] else ts[0] + " " + Unwords(ts[1..])
  }

  lemma WordLenIs(s: string, n: nat)
    requires n <= |s| && (forall i | 0 <= i < n :: !IsSpace(s[i])) && (n < |s| ==> IsSpace(s[n]))
    ensures WordLen(s) == n
  {
    assert WordLen(s) >= n;
  }

  lemma WordLenOfToken(t: string, rest: string)
    requires Token(t) && (rest != "" ==> IsSpace(rest[0]))
    ensures WordLen(t + rest) == |t|
  {
    var s := t + rest;
    assert forall i | 0 <= i < |t| :: s[i] == t[i] && t[i] in t;
    assert |t| < |s| ==> s[|t|] == rest[0];
    WordLenIs(s, |t|);
  }

  lemma FirstWord(t: string, rest: string)
    requires Token(t) && (rest != "" ==> IsSpace(rest[0]))
    ensures Words(t + rest) == [t] + Words(rest)
  {
    var s := t + rest;
    WordLenOfToken(t, rest);
    assert s[0] == t[0] && t[0] in t;
    assert s[..|t|] == t && s[|t|..] == rest;
  }

  /** Splitting what was joined gives the tokens back, with or without one trailing blank. */
  lemma {:induction false} WordsOfUnwords(ts: seq<string>, tail: string)
    requires Tokens(ts) && (tail == "" || tail == " ")
    ensures Words(Unwords(ts) + tail) == ts
  {
    if |ts| == 0 {
      assert Unwords(ts) + tail == tail;
      if tail == " " { assert tail[1..] == ""; }
    } else if |ts| == 1 {
      assert ts[0] in ts;
      FirstWord(ts[0], tail);
      if tail == " " { assert tail[1..] == ""; }
    } else {
      assert ts[0] in ts;
      var more := Unwords(ts[1..]) + tail;
      assert Unwords(ts) + tail == ts[0] + (" " + more);
      FirstWord(ts[0], " " + more);
      assert (" " + more)[1..] == more;
      WordsOfUnwords(ts[1..], tail);
      assert [ts[0]] + ts[1..] == ts;
    }
  }

  lemma {:induction false} UnwordsSnoc(ts: seq<string>, x: string)
    requires |ts| > 0
    ensures Unwords(ts + [x]) == Unwords(ts) + " " + x
  {
    var all := ts + [x];
    if |ts| == 1 {
      assert all[1..] == [x];
    } else {
      assert all[1..] == ts[1..] + [x];
      UnwordsSnoc(ts[1..], x);
      assert ts[0] + " " + (Unwords(ts[1..]) + " " + x) == (ts[0] + " " + Unwords(ts[1..])) + " " + x;
    }
  }

  lemma {:induction false} UnwordsStaysOnOneLine(ts: seq<string>, c: char)
    requires c != ' ' && forall t | t in ts :: c !in t
    ensures c !in Unwords(ts)
  {
    if |ts| == 0 {
    } else if |ts| == 1 {
      assert ts[0] in ts;
    } else {
      assert ts[0] in ts;
      assert forall t | t in ts[1..] :: t in ts;
      UnwordsStaysOnOneLine(ts[1..], c);
    }
  }

  // ---------- lines ----------

  /** `"\n".join(lines) + "\n"`. */
  function Unlines(lines: seq<string>): string {
    if lines == [] then "" else lines[0] + "\n" + Unlines(lines[1..])
  }

  /** Index of the first `c`, or the length. */
  function Find(s: string, c: char): (n: nat)
    ensures n <= |s| && c !in s[..n] && (n < |s| ==> s[n] == c)
  {
    if s == "" || s[0] == c then 0 else
      assert forall n | 0 <= n < |s| :: s[..n + 1] == [s[0]] + s[1..][..n];
      1 + Find(s[1..], c)
  }

  /** The newline-terminated lines of a text (an unterminated last line counts too). */
  function Lines(text: string): seq<string>
    decreases |text|
  {
    if text == "" then []
    else
      var n := Find(text, '\n');
      if n == |text| then [text] else [text[..n]] + Lines(text[n + 1..])
  }

  lemma FindIs(a: string, c: char, b: string)
    requires c !in a
    ensures Find(a + [c] + b, c) == |a|
  {
    var s := a + [c] + b;
    assert s[|a|] == c;
    assert s[..|a|] == a;
    assert forall i | |a| < i <= |s| :: s[..i][|a|] == c;
    assert forall i | 0 <= i < |a| :: s[i] == a[i] && a[i] in a;
  }

  lemma {:induction false} LinesOfUnlines(lines: seq<string>)
    requires forall l | l in lines :: '\n' !in l
    ensures Lines(Unlines(lines)) == lines
  {
    if lines == [] {
    } else {
      var more := Unlines(lines[1..]);
      var text := Unlines(lines);
      assert text == lines[0] + ['\n'] + more;
      FindIs(lines[0], '\n', more);
      assert text[..|lines[0]|] == lines[0] && text[|lines[0]| + 1..] == more;
      LinesOfUnlines(lines[1..]);
    }
  }

  lemma {:induction false} UnlinesOfAppend(a: seq<string>, b: seq<string>)
    ensures Unlines(a + b) == Unlines(a) + Unlines(b)
  {
    if a == [] {
      assert a + b == b;
    } else {
      assert (a + b)[1..] == a[1..] + b;
      UnlinesOfAppend(a[1..], b);
      assert a[0] + "\n" + (Unlines(a[1..]) + Unlines(b)) == (a[0] + "\n" + Unlines(a[1..])) + Unlines(b);
    }
  }

  // ---------- comma-separated lists ----------

  /** `s.split(c)` for a one-character separator. */
  function Split(s: string, c: char): (parts: seq<string>)
    ensures |parts| > 0
    decreases |s|
  {
    var n := Find(s, c);
    if n == |s| then [s] else [s[..n]] + Split(s[n + 1..], c)
  }

  /** `sep.join(parts)`. */
  function Join(parts: seq<string>, sep: string): string {
    if |parts| == 0 then "" else if |parts| == 1 then parts[0] else parts[0] + sep + Join(parts[1..], sep)
  }

  lemma {:induction false} SplitOfJoin(parts: seq<string>, c: char)
    requires |parts| > 0 && forall p | p in parts :: c !in p
    ensures Split(Join(parts, [c]), c) == parts
  {
    if |parts| == 1 {
      assert parts[0] in parts;
    } else {
      assert parts[0] in parts;
      var more := Join(parts[1..], [c]);
      var s := Join(parts, [c]);
      assert s == parts[0] + [c] + more;
      FindIs(parts[0], c, more);
      assert s[..|parts[0]|] == parts[0] && s[|parts[0]| + 1..] == more;
      SplitOfJoin(parts[1..], c);
    }
  }

  /** A split has one part more than the text has separators. */
  lemma {:induction false} PartsOfSplit(s: string, c: char)
    ensures |Split(s, c)| == 1 + multiset(s)[c]
    decreases |s|
  {
    var n := Find(s, c);
    if n < |s| {
      PartsOfSplit(s[n + 1..], c);
      assert s == s[..n] + [c] + s[n + 1..];
      assert c !in multiset(s[..n]);
    }
  }

  // ---------- sorting ----------

  /** Python's lexicographic `<=` on strings. */
  predicate StrLe(a: string, b: string) {
    a == "" || (b != "" && (a[0] < b[0] || (a[0] == b[0] && StrLe(a[1..], b[1..]))))
  }

  lemma StrLeTotal(a: string, b: string)
    ensures StrLe(a, b) || StrLe(b, a)
  {
  }

  lemma {:induction false} StrLeAntisymmetric(a: string, b: string)
    requires StrLe(a, b) && StrLe(b, a)
    ensures a == b
  {
    if a != "" {
      StrLeAntisymmetric(a[1..], b[1..]);
      assert a == [a[0]] + a[1..] && b == [b[0]] + b[1..];
    }
  }

  lemma {:induction false} StrLeTransitive(a: string, b: string, c: string)
    requires StrLe(a, b) && StrLe(b, c)
    ensures StrLe(a, c)
  {
    if a != "" && a[0] == b[0] && b[0] == c[0] {
      StrLeTransitive(a[1..], b[1..], c[1..]);
    }
  }

  ghost predicate Sorted(s: seq<string>) {
    forall i, j | 0 <= i < j < |s| :: StrLe(s[i], s[j])
  }

  function Insert(x: string, s: seq<string>): (r: seq<string>)
    requires Sorted(s)
    ensures Sorted(r) && multiset(r) == multiset(s) + multiset{x}
  {
    if s == [] then [x]
    else if StrLe(x, s[0]) then
      assert forall j | 0 <= j < |s| :: StrLe(x, s[j]) by {
        forall j | 0 <= j < |s| ensures StrLe(x, s[j]) {
          if j > 0 { StrLeTransitive(x, s[0], s[j]); }
        }
      }
      [x] + s
    else
      StrLeTotal(x, s[0]);
      assert s == [s[0]] + s[1..];
      var r := Insert(x, s[1..]);
      assert forall y | y in r :: StrLe(s[0], y) by {
        forall y | y in r ensures StrLe(s[0], y) {
          assert y in multiset(r);
          assert y == x || y in s[1..];
        }
      }
      [s[0]] + r
  }

  /** `sorted(s)`: an ordered permutation of the list. */
  function Sort(s: seq<string>): (r: seq<string>)
    ensures Sorted(r) && multiset(r) == multiset(s)
  {
    if s == [] then [] else
      assert s == [s[0]] + s[1..];
      Insert(s[0], Sort(s[1..]))
  }

  lemma SameSize(a: seq<string>, b: seq<string>)
    requires multiset(a) == multiset(b)
    ensures |a| == |b|
  {
    assert |multiset(a)| == |a| && |multiset(b)| == |b|;
  }

  lemma SameHead(a: seq<string>, b: seq<string>)
    requires Sorted(a) && Sorted(b) && multiset(a) == multiset(b) && a != [] && b != []
    ensures a[0] == b[0]
  {
    assert a[0] in multiset(b) && b[0] in multiset(a);
    assert StrLe(a[0], a[0]) && StrLe(b[0], b[0]) by { StrLeTotal(a[0], a[0]); StrLeTotal(b[0], b[0]); }
    assert StrLe(b[0], a[0]);
    assert StrLe(a[0], b[0]);
    StrLeAntisymmetric(a[0], b[0]);
  }

  lemma {:induction false} SortedIsUnique(a: seq<string>, b: seq<string>)
    requires Sorted(a) && Sorted(b) && multiset(a) == multiset(b)
    ensures a == b
  {
    SameSize(a, b);
    if a != [] {
      SameHead(a, b);
      assert a == [a[0]] + a[1..] && b == [b[0]] + b[1..];
      assert multiset(a[1..]) == multiset(a) - multiset{a[0]};
      assert multiset(b[1..]) == multiset(b) - multiset{b[0]};
      SortedIsUnique(a[1..], b[1..]);
    }
  }

  /** Sorting forgets the order the elements came in. */
  lemma SortIgnoresOrder(a: seq<string>, b: seq<string>)
    requires multiset(a) == multiset(b)
    ensures Sort(a) == Sort(b)
  {
    SortedIsUnique(Sort(a), Sort(b));
  }

  // ---------- decimal numbers ----------

  function Digit(d: nat): (c: char)
    requires d < 10
    ensures c as int == '0' as int + d
  {
    ('0' as int + d) as char
  }

  /** The decimal text of a number, as an f-string prints it. */
  function Decimal(n: nat): (s: string)
    ensures s != "" && forall c | c in s :: '0' <= c <= '9'
  {
    if n < 10 then [Digit(n)] else Decimal(n / 10) + [Digit(n % 10)]
  }

  lemma {:induction false} DecimalInjective(m: nat, n: nat)
    requires Decimal(m) == Decimal(n)
    ensures m == n
  {
    var s, t := Decimal(m), Decimal(n);
    assert s[|s| - 1] as int - '0' as int == m % 10;
    assert t[|t| - 1] as int - '0' as int == n % 10;
    assert s[..|s| - 1] == if m < 10 then "" else Decimal(m / 10);
    assert t[..|t| - 1] == if n < 10 then "" else Decimal(n / 10);
    if m >= 10 && n >= 10 { DecimalInjective(m / 10, n / 10); }
  }
}
