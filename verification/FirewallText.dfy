/** The lines of the applied file that do not depend on rules or forwards, word by word. */
module FirewallText {
  import opened Text
  import opened Firewall

  lemma OptionWords(a: Opt, b: Opt)
    ensures Flatten([a, b]) == [a.0, a.1, b.0, b.1] && Flatten([a]) == [a.0, a.1] && Flatten([]) == []
  {
    assert [a, b][1..] == [b] && [b][1..] == [] && [a][1..] == [];
    assert Flatten([]) == [] && Flatten([b]) == [b.0, b.1] + Flatten([]) && Flatten([a]) == [a.0, a.1] + Flatten([]);
  }

  lemma LogWords(chain: string, reason: string)
    ensures RuleTokens(LimitedLog(chain, reason))
         == ["-A", chain, "-m", "limit", "--limit", "5/second", "-j", "NFLOG", "--nflog-group", "1", "--nflog-prefix", "\"FW", reason, "\""]
  {
    hide Flatten;
    OptionWords(("-m", "limit"), ("--limit", "5/second"));
  }

  /** The logging chains: a rate-limited log line, with a blank at its end, and the denial. */
  lemma LogLines()
    ensures PrintAll(LogRules())
         == [ Unwords(["-A", "LOGDROP", "-m", "limit", "--limit", "5/second", "-j", "NFLOG", "--nflog-group", "1",
                       "--nflog-prefix", "\"FW", "DROP:", "\""]) + " ",
              Unwords(["-A", "LOGDROP", "-j", "DROP"]),
              Unwords(["-A", "LOGREJECT", "-m", "limit", "--limit", "5/second", "-j", "NFLOG", "--nflog-group", "1",
                       "--nflog-prefix", "\"FW", "REJECT:", "\""]) + " ",
              Unwords(["-A", "LOGREJECT", "-j", "REJECT"]) ]
  {
    hide Unwords, RuleTokens;
    LogWords("LOGDROP", "DROP:");
    LogWords("LOGREJECT", "REJECT:");
    BareWords("LOGDROP", "DROP");
    BareWords("LOGREJECT", "REJECT");
    assert Unwords(["-A", "LOGDROP", "-j", "DROP"]) + "" == Unwords(["-A", "LOGDROP", "-j", "DROP"]);
    assert Unwords(["-A", "LOGREJECT", "-j", "REJECT"]) + "" == Unwords(["-A", "LOGREJECT", "-j", "REJECT"]);
    assert PrintAll(LogRules()) == [Print(LogRules()[0]), Print(LogRules()[1]), Print(LogRules()[2]), Print(LogRules()[3])];
  }

  lemma BareWords(chain: string, target: string)
    ensures RuleTokens(ChainRule(chain, [], target, [])) == ["-A", chain, "-j", target]
  {
  }

  lemma JoinedStates()
    ensures Join(REPLY_STATES, ",") == "ESTABLISHED,RELATED" && Join(["INVALID"], ",") == "INVALID"
  {
    assert ["ESTABLISHED", "RELATED"][1..] == ["RELATED"];
    assert "ESTABLISHED" + "," + "RELATED" == "ESTABLISHED,RELATED";
  }

  lemma StateWords(states: seq<string>, target: string)
    ensures RuleTokens(StateRule(states, target)) == ["-A", "FORWARD", "-m", "conntrack", "--ctstate", Join(states, ","), "-j", target]
  {
    hide Flatten, Join;
    OptionWords(("-m", "conntrack"), ("--ctstate", Join(states, ",")));
  }

  /** The rules around those of users and forwards. */
  lemma ForwardLines()
    ensures Print(StateRule(REPLY_STATES, "ACCEPT"))
         == Unwords(["-A", "FORWARD", "-m", "conntrack", "--ctstate", "ESTABLISHED,RELATED", "-j", "ACCEPT"])
    ensures Print(StateRule(["INVALID"], "DROP")) == Unwords(["-A", "FORWARD", "-m", "conntrack", "--ctstate", "INVALID", "-j", "DROP"])
    ensures Print(ICS_RULE) == Unwords(["-A", "FORWARD", "-s", "192.168.95.0/24", "-j", "ACCEPT"])
    ensures Print(CATCH_ALL) == Unwords(["-A", "FORWARD", "-j", "LOGDROP"])
  {
    hide Unwords, Flatten, Join;
    JoinedStates();
    StateWords(REPLY_STATES, "ACCEPT");
    StateWords(["INVALID"], "DROP");
    BareWords("FORWARD", "LOGDROP");
    OptionWords(("-s", ICS_SUBNET), ("-s", ICS_SUBNET));
    assert RuleTokens(ICS_RULE) == ["-A", "FORWARD", "-s", "192.168.95.0/24", "-j", "ACCEPT"];
    forall ws: seq<string> ensures Unwords(ws) + "" == Unwords(ws) {}
  }

  lemma DeclarationsCons(c: (string, string), more: seq<(string, string)>)
    ensures Declarations([c] + more) == [Unwords([":" + c.0, c.1, "[0:0]"])] + Declarations(more)
  {
    assert ([c] + more)[1..] == more;
  }

  lemma NoDeclarations()
    ensures Declarations([]) == []
  {
  }

  /** The heads of the two tables: names, chains and policies. */
  lemma Heads()
    ensures TableHead("filter", FILTER_CHAINS)
         == [ Unwords(["*filter"]), Unwords([":INPUT", "ACCEPT", "[0:0]"]), Unwords([":FORWARD", "DROP", "[0:0]"]),
              Unwords([":OUTPUT", "ACCEPT", "[0:0]"]), Unwords([":LOGDROP", "-", "[0:0]"]), Unwords([":LOGREJECT", "-", "[0:0]"]) ]
    ensures TableHead("nat", NAT_CHAINS) == [Unwords(["*nat"]), Unwords([":PREROUTING", "ACCEPT", "[0:0]"])]
  {
    hide Unwords, Declarations;
    var c4 := [("LOGREJECT", "-")];
    var c3 := [("LOGDROP", "-")] + c4;
    var c2 := [("OUTPUT", "ACCEPT")] + c3;
    var c1 := [("FORWARD", "DROP")] + c2;
    NoDeclarations();
    DeclarationsCons(("LOGREJECT", "-"), []);
    DeclarationsCons(("LOGDROP", "-"), c4);
    DeclarationsCons(("OUTPUT", "ACCEPT"), c3);
    DeclarationsCons(("FORWARD", "DROP"), c2);
    DeclarationsCons(("INPUT", "ACCEPT"), c1);
    DeclarationsCons(("PREROUTING", "ACCEPT"), []);
    assert FILTER_CHAINS == [("INPUT", "ACCEPT")] + c1 && c4 == [("LOGREJECT", "-")] + [];
    assert NAT_CHAINS == [("PREROUTING", "ACCEPT")] + [];
    assert ":" + "INPUT" == ":INPUT" && ":" + "FORWARD" == ":FORWARD" && ":" + "OUTPUT" == ":OUTPUT";
    assert ":" + "LOGDROP" == ":LOGDROP" && ":" + "LOGREJECT" == ":LOGREJECT" && ":" + "PREROUTING" == ":PREROUTING";
    assert "*" + "filter" == "*filter" && "*" + "nat" == "*nat";
  }
}
