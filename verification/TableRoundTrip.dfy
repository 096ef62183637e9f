/** Any table the printer writes reads back as its chains and rules, in order. */
module TableRoundTrip {
  import opened Text
  import opened Firewall
  import opened Kernel

  predicate OptsOk(opts: seq<Opt>, before: seq<Opt>)
    decreases |opts|
  {
    opts == [] || (MayFollow(opts[0].0, before) && Token(opts[0].1) && OptsOk(opts[1..], before + [opts[0]]))
  }

  predicate ChainsOk(chains: seq<(string, string)>) {
    forall c | c in chains :: Token(":" + c.0) && Token(c.1)
  }

  predicate RuleOk(k: ChainRule, chains: set<string>) {
    && k.chain in chains && Token(k.chain)
    && (k.target in TARGETS || k.target in chains) && Token(k.target)
    && Tokens(k.args) && OptsOk(k.opts, [])
  }

  lemma {:induction false} ParsePrinted(chain: string, opts: seq<Opt>, before: seq<Opt>, target: string, args: seq<string>)
    requires OptsOk(opts, before)
    ensures ParseRule(chain, Flatten(opts) + ["-j", target] + args, before) == Ok(ChainRule(chain, before + opts, target, args))
    decreases |opts|
  {
    var ws := Flatten(opts) + ["-j", target] + args;
    if opts == [] {
      assert ws == ["-j", target] + args;
      assert before + opts == before;
    } else {
      assert ws == [opts[0].0, opts[0].1] + (Flatten(opts[1..]) + ["-j", target] + args);
      assert ws[2..] == Flatten(opts[1..]) + ["-j", target] + args;
      ParsePrinted(chain, opts[1..], before + [opts[0]], target, args);
      assert before + [opts[0]] + opts[1..] == before + opts;
    }
  }

  lemma FlagIsToken(flag: string)
    requires flag in FLAGS
    ensures Token(flag) && flag[0] == '-'
  {
  }

  lemma {:induction false} FlattenTokens(opts: seq<Opt>, before: seq<Opt>)
    requires OptsOk(opts, before)
    ensures Tokens(Flatten(opts))
    decreases |opts|
  {
    if opts != [] {
      FlagIsToken(opts[0].0);
      FlattenTokens(opts[1..], before + [opts[0]]);
    }
  }

  lemma RuleTokensAreTokens(k: ChainRule)
    requires Token(k.chain) && Token(k.target) && Tokens(k.args) && OptsOk(k.opts, [])
    ensures Tokens(RuleTokens(k))
  {
    FlattenTokens(k.opts, []);
    assert Token("-A") && Token("-j");
  }

  function Append(st: Loading, ks: seq<ChainRule>): Loading
    requires st.current in st.tables
  {
    var t := st.tables[st.current];
    st.(tables := st.tables[st.current := t.(rules := t.rules + ks)])
  }

  function Declared(st: Loading): set<string> {
    if st.current in st.tables then st.tables[st.current].policies.Keys else {}
  }

  lemma LoadRuleWords(st: Loading, ws: seq<string>)
    requires |ws| > 1 && ws[0] == "-A" && ws[1] in Declared(st)
    ensures LoadWords(st, ws) == AddRule(st, ParseRule(ws[1], ws[2..], []))
  {
    assert ws[0][0] == '-' && "*"[0] == '*' && ":"[0] == ':';
  }

  lemma LoadPrinted(st: Loading, k: ChainRule)
    requires RuleOk(k, Declared(st))
    ensures LoadLine(st, Print(k)) == Ok(Append(st, [k]))
  {
    var body := Flatten(k.opts) + ["-j", k.target] + k.args;
    var ts := RuleTokens(k);
    RuleTokensAreTokens(k);
    assert ts == ["-A", k.chain] + body;
    WordsOfUnwords(ts, Padding(k));
    ParsePrinted(k.chain, k.opts, [], k.target, k.args);
    assert [] + k.opts == k.opts;
    LoadRuleWords(st, ts);
    assert ts[2..] == body;
  }

  lemma {:induction false} LoadLinesAppend(st: Loading, a: seq<string>, b: seq<string>)
    ensures LoadLines(st, a + b) == (var r := LoadLines(st, a); if r.Err? then r else LoadLines(r.value, b))
    decreases |a|
  {
    if a == [] {
      assert a + b == b;
    } else {
      assert (a + b)[1..] == a[1..] + b;
      var next := LoadLine(st, a[0]);
      if next.Ok? { LoadLinesAppend(next.value, a[1..], b); }
    }
  }

  lemma Then(st: Loading, a: seq<string>, mid: Loading, b: seq<string>, end: Loading)
    requires LoadLines(st, a) == Ok(mid) && LoadLines(mid, b) == Ok(end)
    ensures LoadLines(st, a + b) == Ok(end)
  {
    LoadLinesAppend(st, a, b);
  }

  lemma LoadOne(st: Loading, line: string)
    ensures LoadLines(st, [line]) == LoadLine(st, line)
  {
    assert [line][1..] == [];
  }

  lemma AppendTwice(st: Loading, a: seq<ChainRule>, b: seq<ChainRule>)
    requires st.current in st.tables
    ensures Append(Append(st, a), b) == Append(st, a + b)
  {
    assert st.tables[st.current].rules + a + b == st.tables[st.current].rules + (a + b);
    assert Append(Append(st, a), b).tables == Append(st, a + b).tables;
  }

  lemma {:induction false} LoadRules(st: Loading, ks: seq<ChainRule>)
    requires st.current in st.tables && forall k | k in ks :: RuleOk(k, Declared(st))
    ensures LoadLines(st, PrintAll(ks)) == Ok(Append(st, ks))
    decreases |ks|
  {
    hide RuleOk, Print;
    if ks == [] {
      assert st.tables[st.current].rules + [] == st.tables[st.current].rules;
      assert Append(st, ks).tables == st.tables;
    } else {
      assert ks[0] in ks;
      LoadPrinted(st, ks[0]);
      var next := Append(st, [ks[0]]);
      assert Declared(next) == Declared(st);
      LoadRules(next, ks[1..]);
      LoadOne(st, Print(ks[0]));
      assert PrintAll(ks) == [Print(ks[0])] + PrintAll(ks[1..]);
      AppendTwice(st, [ks[0]], ks[1..]);
      assert [ks[0]] + ks[1..] == ks;
      Then(st, [Print(ks[0])], next, PrintAll(ks[1..]), Append(st, ks));
    }
  }

  function Declare(policies: map<string, string>, chains: seq<(string, string)>): map<string, string>
    decreases |chains|
  {
    if chains == [] then policies else Declare(policies[chains[0].0 := chains[0].1], chains[1..])
  }

  function WithPolicies(st: Loading, policies: map<string, string>): Loading
    requires st.current in st.tables
  {
    st.(tables := st.tables[st.current := st.tables[st.current].(policies := policies)])
  }

  lemma LoadDeclaration(st: Loading, c: (string, string))
    requires Token(":" + c.0) && Token(c.1) && st.current in st.tables
    ensures LoadLine(st, Unwords([":" + c.0, c.1, "[0:0]"]))
         == Ok(WithPolicies(st, st.tables[st.current].policies[c.0 := c.1]))
  {
    var ws := [":" + c.0, c.1, "[0:0]"];
    assert Token("[0:0]");
    WordsOfUnwords(ws, "");
    assert Unwords(ws) + "" == Unwords(ws);
    assert ws[0][1..] == c.0;
  }

  lemma {:induction false} LoadDeclarations(st: Loading, chains: seq<(string, string)>)
    requires st.current in st.tables && ChainsOk(chains)
    ensures LoadLines(st, Declarations(chains)) == Ok(WithPolicies(st, Declare(st.tables[st.current].policies, chains)))
    decreases |chains|
  {
    if chains == [] {
      assert WithPolicies(st, st.tables[st.current].policies).tables == st.tables;
    } else {
      assert chains[0] in chains;
      LoadDeclaration(st, chains[0]);
      var next := WithPolicies(st, st.tables[st.current].policies[chains[0].0 := chains[0].1]);
      LoadDeclarations(next, chains[1..]);
      assert Declarations(chains)[1..] == Declarations(chains[1..]);
      var p := Declare(st.tables[st.current].policies, chains);
      assert WithPolicies(next, p).tables == WithPolicies(st, p).tables;
    }
  }

  lemma LoadHead(tables: map<string, Table>, name: string, chains: seq<(string, string)>)
    requires Token("*" + name) && ChainsOk(chains)
    ensures LoadLines(Loading("", tables), TableHead(name, chains))
         == Ok(Loading(name, tables[name := Table(Declare(map[], chains), [])]))
  {
    hide ChainsOk, Declarations, Declare;
    var ws := ["*" + name];
    WordsOfUnwords(ws, "");
    assert Unwords(ws) + "" == Unwords(ws);
    assert ws[0][1..] == name;
    var st := Loading(name, tables[name := Table(map[], [])]);
    LoadOne(Loading("", tables), Unwords(ws));
    LoadDeclarations(st, chains);
    var end := WithPolicies(st, Declare(map[], chains));
    Then(Loading("", tables), [Unwords(ws)], st, Declarations(chains), end);
    assert end.tables == tables[name := Table(Declare(map[], chains), [])];
  }

  lemma LoadCommit(st: Loading)
    ensures LoadLines(st, [Unwords(["COMMIT"])]) == Ok(st.(current := ""))
  {
    var ws := ["COMMIT"];
    assert Token("COMMIT");
    WordsOfUnwords(ws, "");
    assert Unwords(ws) + "" == Unwords(ws);
    LoadOne(st, Unwords(ws));
  }

  /** Any printed table reads back as its chains and rules, in order. */
  lemma LoadTable(tables: map<string, Table>, name: string, chains: seq<(string, string)>, ks: seq<ChainRule>)
    requires Token("*" + name) && ChainsOk(chains)
    requires forall k | k in ks :: RuleOk(k, Declare(map[], chains).Keys)
    ensures LoadLines(Loading("", tables), TableLines(name, chains, ks))
         == Ok(Loading("", tables[name := Table(Declare(map[], chains), ks)]))
  {
    var st0, st := Loading("", tables), Loading(name, tables[name := Table(Declare(map[], chains), [])]);
    LoadHead(tables, name, chains);
    LoadRules(st, ks);
    var full := Append(st, ks);
    assert [] + ks == ks;
    assert full.tables == tables[name := Table(Declare(map[], chains), ks)];
    Then(st0, TableHead(name, chains), st, PrintAll(ks), full);
    LoadCommit(full);
    Then(st0, TableHead(name, chains) + PrintAll(ks), full, [Unwords(["COMMIT"])], full.(current := ""));
  }

  lemma TokensStayOnOneLine(ts: seq<string>, tail: string)
    requires Tokens(ts) && (tail == "" || tail == " ")
    ensures '\n' !in Unwords(ts) + tail
  {
    UnwordsStaysOnOneLine(ts, '\n');
  }

  lemma {:induction false} DeclarationsOnOneLine(chains: seq<(string, string)>)
    requires ChainsOk(chains)
    ensures forall l | l in Declarations(chains) :: '\n' !in l
  {
    if chains != [] {
      assert chains[0] in chains;
      assert Token("[0:0]");
      TokensStayOnOneLine([":" + chains[0].0, chains[0].1, "[0:0]"], "");
      DeclarationsOnOneLine(chains[1..]);
    }
  }

  lemma TableOnOneLineEach(name: string, chains: seq<(string, string)>, ks: seq<ChainRule>, declared: set<string>)
    requires Token("*" + name) && ChainsOk(chains) && forall k | k in ks :: RuleOk(k, declared)
    ensures forall l | l in TableLines(name, chains, ks) :: '\n' !in l
  {
    DeclarationsOnOneLine(chains);
    TokensStayOnOneLine(["*" + name], "");
    assert Token("COMMIT");
    TokensStayOnOneLine(["COMMIT"], "");
    forall l | l in PrintAll(ks) ensures '\n' !in l {
      var i :| 0 <= i < |ks| && l == Print(ks[i]);
      assert ks[i] in ks;
      RuleTokensAreTokens(ks[i]);
      TokensStayOnOneLine(RuleTokens(ks[i]), Padding(ks[i]));
    }
    forall l | l in TableLines(name, chains, ks) ensures '\n' !in l {
      assert l == Unwords(["*" + name]) || l in Declarations(chains) || l in PrintAll(ks) || l == Unwords(["COMMIT"]);
    }
  }
}
