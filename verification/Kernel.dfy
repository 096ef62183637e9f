/**
 A reference reading of an iptables-restore file: the file is split back into tables and rules,
 and a packet walks a chain first match first, entering the chains it jumps to.
 What an address, interface, protocol or port text stands for is left open.
 */
module Kernel {
  import opened Text
  import opened Firewall

  datatype Matchers = Matchers(addr: (string, int) -> bool, iface: (string, string) -> bool,
                               proto: (string, string) -> bool, port: (string, int) -> bool,
                               addrOf: string -> int, portOf: string -> int)

  datatype Packet = Packet(ifaceIn: string, ifaceOut: string, src: int, dst: int,
                           proto: string, dport: int, state: string)

  datatype Table = Table(policies: map<string, string>, rules: seq<ChainRule>)

  datatype Loading = Loading(current: string, tables: map<string, Table>)

  datatype Verdict = Accept | Drop | Reject

  /** What became of a packet, and how many log entries it left. */
  datatype Outcome = Outcome(verdict: Option<Verdict>, logged: nat)

  const FLAGS := {"-p", "-s", "-d", "-i", "-o", "--dport", "-m", "--ctstate", "--limit"}
  const TARGETS := {"ACCEPT", "DROP", "REJECT", "NFLOG", "DNAT"}

  // ---------- reading the file ----------

  /** A port can only be matched once the protocol is known to have ports. */
  predicate MayFollow(flag: string, before: seq<Opt>) {
    flag in FLAGS && (flag == "--dport" ==> ("-p", "tcp") in before || ("-p", "udp") in before)
  }

  function ParseRule(chain: string, words: seq<string>, before: seq<Opt>): Result<ChainRule>
    decreases |words|
  {
    if |words| < 2 then Err("incomplete rule")
    else if words[0] == "-j" then Ok(ChainRule(chain, before, words[1], words[2..]))
    else if MayFollow(words[0], before) then ParseRule(chain, words[2..], before + [(words[0], words[1])])
    else Err("unknown option")
  }

  function LoadLine(st: Loading, line: string): Result<Loading> {
    LoadWords(st, Words(line))
  }

  function LoadWords(st: Loading, ws: seq<string>): Result<Loading> {
    if ws == [] then Ok(st)
    else if ws == ["COMMIT"] then Ok(st.(current := ""))
    else if "*" <= ws[0] then Ok(Loading(ws[0][1..], st.tables[ws[0][1..] := Table(map[], [])]))
    else if st.current !in st.tables then Err("no table")
    else
      var t := st.tables[st.current];
      if ":" <= ws[0] && |ws| > 1 then
        Ok(st.(tables := st.tables[st.current := t.(policies := t.policies[ws[0][1..] := ws[1]])]))
      else if ws[0] == "-A" && |ws| > 1 && ws[1] in t.policies then
        AddRule(st, ParseRule(ws[1], ws[2..], []))
      else Err("unknown line")
  }

  function AddRule(st: Loading, r: Result<ChainRule>): Result<Loading>
    requires st.current in st.tables
  {
    var t := st.tables[st.current];
    if r.Err? then Err(r.error)
    else if r.value.target !in TARGETS && r.value.target !in t.policies then Err("no such target")
    else Ok(st.(tables := st.tables[st.current := t.(rules := t.rules + [r.value])]))
  }

  function LoadLines(st: Loading, lines: seq<string>): Result<Loading>
    decreases |lines|
  {
    if lines == [] then Ok(st)
    else
      var next := LoadLine(st, lines[0]);
      if next.Err? then next else LoadLines(next.value, lines[1..])
  }

  /** Restoring a file into empty tables. */
  function Restore(text: string): Result<map<string, Table>> {
    var r := LoadLines(Loading("", map[]), Lines(text));
    if r.Ok? then Ok(r.value.tables) else Err(r.error)
  }

  // ---------- walking a chain ----------

  /** Whether one option holds of a packet; `budget` says whether the rate limiter still lets one through. */
  predicate Holds(m: Matchers, o: Opt, p: Packet, budget: bool) {
    match o.0
    case "-p" => m.proto(o.1, p.proto)
    case "-s" => m.addr(o.1, p.src)
    case "-d" => m.addr(o.1, p.dst)
    case "-i" => m.iface(o.1, p.ifaceIn)
    case "-o" => m.iface(o.1, p.ifaceOut)
    case "--dport" => m.port(o.1, p.dport)
    case "--ctstate" => p.state in Split(o.1, ',')
    case "--limit" => budget
    case _ => true
  }

  predicate HoldAll(m: Matchers, opts: seq<Opt>, p: Packet, budget: bool) {
    forall o | o in opts :: Holds(m, o, p, budget)
  }

  /** Walks `todo`, the rest of the table's rules, within one chain; `depth` bounds nested jumps. */
  function Walk(m: Matchers, all: seq<ChainRule>, todo: seq<ChainRule>, chain: string, p: Packet, budget: bool, depth: nat): Outcome
    decreases depth, |todo|
  {
    if todo == [] then Outcome(None, 0)
    else
      var r := todo[0];
      if r.chain != chain || !HoldAll(m, r.opts, p, budget) then Walk(m, all, todo[1..], chain, p, budget, depth)
      else if r.target == "ACCEPT" then Outcome(Some(Accept), 0)
      else if r.target == "DROP" then Outcome(Some(Drop), 0)
      else if r.target == "REJECT" then Outcome(Some(Reject), 0)
      else if r.target == "NFLOG" then
        var o := Walk(m, all, todo[1..], chain, p, budget, depth);
        Outcome(o.verdict, o.logged + 1)
      else if depth == 0 then Walk(m, all, todo[1..], chain, p, budget, depth)
      else
        var inner := Walk(m, all, all, r.target, p, budget, depth - 1);
        if inner.verdict.Some? then inner
        else
          var o := Walk(m, all, todo[1..], chain, p, budget, depth);
          Outcome(o.verdict, inner.logged + o.logged)
  }

  function PolicyVerdict(policy: string): Verdict {
    if policy == "ACCEPT" then Accept else Drop
  }

  /** The fate of a packet handed to a chain with a policy. */
  function Filter(m: Matchers, t: Table, chain: string, p: Packet, budget: bool, depth: nat): Outcome
    requires chain in t.policies
  {
    var o := Walk(m, t.rules, t.rules, chain, p, budget, depth);
    if o.verdict.Some? then o else Outcome(Some(PolicyVerdict(t.policies[chain])), o.logged)
  }

  predicate Redirects(m: Matchers, r: ChainRule, p: Packet) {
    r.chain == "PREROUTING" && r.target == "DNAT" && HoldAll(m, r.opts, p, false)
  }

  /** The index of the first PREROUTING rule that redirects a packet, or the number of rules. */
  function FirstDnat(m: Matchers, rules: seq<ChainRule>, p: Packet): (n: nat)
    ensures n <= |rules|
    ensures n < |rules| ==> Redirects(m, rules[n], p)
    ensures forall i | 0 <= i < n :: !Redirects(m, rules[i], p)
    decreases |rules|
  {
    if rules == [] || Redirects(m, rules[0], p) then 0 else 1 + FirstDnat(m, rules[1..], p)
  }

  /** Destination rewriting in PREROUTING, for the first packet of a connection. */
  function Translate(m: Matchers, t: Table, p: Packet): Packet {
    var n := FirstDnat(m, t.rules, p);
    if n == |t.rules| || |t.rules[n].args| != 2 then p
    else
      var to := Split(t.rules[n].args[1], ':');
      if |to| != 2 then p else p.(dst := m.addrOf(to[0]), dport := m.portOf(to[1]))
  }
}
