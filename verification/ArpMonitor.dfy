/** The ARP monitor: its event log as the history of its state. */
module ArpMonitor {
  import opened Text

  datatype Entry = Entry(ip: string, mac: string, iface: string)

  datatype Record = Record(mac: string, iface: string, firstSeen: string, lastSeen: string)

  /** A dictionary, with its keys in the order in which they were added. */
  datatype State = State(known: map<string, Record>, order: seq<string>)

  /** An empty `claimed` stands for no `mac_also_claimed_by` member. */
  datatype Event = NewStation(at: string, ip: string, mac: string, iface: string, claimed: string)
                 | ChangedMac(at: string, ip: string, mac: string, oldMac: string, iface: string, claimed: string)

  // ---------- the kernel's table ----------

  /** An entry of the table, if its line is complete and resolved. */
  function ReadLine(line: string): Option<Entry> {
    var parts := Words(line);
    if |parts| < 6 || parts[2] == "0x0" then None else Some(Entry(parts[0], parts[3], parts[5]))
  }

  predicate DistinctIps(table: seq<Entry>) {
    forall i, j | 0 <= i < j < |table| :: table[i].ip != table[j].ip
  }

  /** `entries[ip] = ...` in a dictionary that keeps the order of its keys. */
  function Put(table: seq<Entry>, e: Entry): seq<Entry> {
    if table == [] then [e] else if table[0].ip == e.ip then [e] + table[1..] else [table[0]] + Put(table[1..], e)
  }

  function Get(table: seq<Entry>, ip: string): Option<Entry> {
    if table == [] then None else if table[0].ip == ip then Some(table[0]) else Get(table[1..], ip)
  }

  /** The last complete line about an address, after some earlier finding. */
  function LastAbout(lines: seq<string>, ip: string, earlier: Option<Entry>): Option<Entry> {
    if lines == [] then earlier
    else
      var e := ReadLine(lines[|lines| - 1]);
      if e.Some? && e.value.ip == ip then e else LastAbout(lines[..|lines| - 1], ip, earlier)
  }

  lemma {:induction false} PutGets(table: seq<Entry>, e: Entry, ip: string)
    requires DistinctIps(table)
    ensures DistinctIps(Put(table, e)) && Get(Put(table, e), ip) == if ip == e.ip then Some(e) else Get(table, ip)
    ensures forall x | x in Put(table, e) :: x == e || x in table
  {
    if table != [] && table[0].ip != e.ip {
      PutGets(table[1..], e, ip);
      var r := Put(table, e);
      forall i, j | 0 <= i < j < |r| ensures r[i].ip != r[j].ip {
        if i == 0 { assert r[j] in Put(table[1..], e); }
      }
    }
  }

  /** `read_arp_table`, from the lines of the file. */
  method ReadArpTable(lines: seq<string>) returns (table: seq<Entry>)
    ensures DistinctIps(table)
    ensures forall ip :: Get(table, ip) == LastAbout(if lines == [] then [] else lines[1..], ip, None)
  {
    table := [];
    var body := if lines == [] then [] else lines[1..];
    for n := 0 to |body|
      invariant DistinctIps(table) && forall ip :: Get(table, ip) == LastAbout(body[..n], ip, None)
    {
      assert body[..n + 1][..n] == body[..n];
      var e := ReadLine(body[n]);
      if e.Some? {
        forall ip ensures Get(Put(table, e.value), ip) == LastAbout(body[..n + 1], ip, None) {
          PutGets(table, e.value, ip);
        }
        PutGets(table, e.value, e.value.ip);
        table := Put(table, e.value);
      }
    }
    assert body[..|body|] == body;
  }

  // ---------- one sighting ----------

  /** Every key is listed once. */
  ghost predicate Listed(s: State) {
    (forall ip :: ip in s.order <==> ip in s.known) && forall i, j | 0 <= i < j < |s.order| :: s.order[i] != s.order[j]
  }

  /** The other addresses with a MAC, in the order of the dictionary. */
  function Others(order: seq<string>, known: map<string, Record>, ip: string, mac: string): seq<string> {
    if order == [] then []
    else
      (if order[0] in known && order[0] != ip && known[order[0]].mac == mac then [order[0]] else [])
      + Others(order[1..], known, ip, mac)
  }

  function OtherIpsWithMac(s: State, ip: string, mac: string): string {
    Join(Sort(Others(s.order, s.known, ip, mac)), ", ")
  }

  function Sight(s: State, now: string, e: Entry): (State, seq<Event>) {
    var claimed := OtherIpsWithMac(s, e.ip, e.mac);
    if e.ip !in s.known then
      (State(s.known[e.ip := Record(e.mac, e.iface, now, now)], s.order + [e.ip]), [NewStation(now, e.ip, e.mac, e.iface, claimed)])
    else if s.known[e.ip].mac != e.mac then
      (s.(known := s.known[e.ip := s.known[e.ip].(mac := e.mac, lastSeen := now)]),
       [ChangedMac(now, e.ip, e.mac, s.known[e.ip].mac, e.iface, claimed)])
    else (s.(known := s.known[e.ip := s.known[e.ip].(lastSeen := now)]), [])
  }

  /** When an entry was seen. */
  type Sighting = (string, Entry)

  /** The state and the events after some sightings. */
  function Watch(s: State, seen: seq<Sighting>): (State, seq<Event>) {
    if seen == [] then (s, [])
    else
      var (before, events) := Watch(s, seen[..|seen| - 1]);
      var (after, more) := Sight(before, seen[|seen| - 1].0, seen[|seen| - 1].1);
      (after, events + more)
  }

  function At(now: string, table: seq<Entry>): (r: seq<Sighting>)
    ensures |r| == |table|
  {
    seq(|table|, i requires 0 <= i < |table| => (now, table[i]))
  }

  class Monitor {
    var known: map<string, Record>
    var order: seq<string>
    var log: seq<Event>

    ghost function View(): State
      reads this
    {
      State(known, order)
    }

    constructor (start: State)
      ensures View() == start && log == []
    {
      known, order, log := start.known, start.order, [];
    }

    /** One round of the loop of `poll`. */
    method Note(now: string, e: Entry)
      modifies this
      ensures (View(), log) == (Sight(old(View()), now, e).0, old(log) + Sight(old(View()), now, e).1)
    {
      if e.ip !in known {
        var claimed := OtherIpsWithMac(State(known, order), e.ip, e.mac);
        known := known[e.ip := Record(e.mac, e.iface, now, now)];
        order := order + [e.ip];
        log := log + [NewStation(now, e.ip, e.mac, e.iface, claimed)];
      } else if known[e.ip].mac != e.mac {
        var oldMac := known[e.ip].mac;
        var claimed := OtherIpsWithMac(State(known, order), e.ip, e.mac);
        known := known[e.ip := known[e.ip].(mac := e.mac)];
        known := known[e.ip := known[e.ip].(lastSeen := now)];
        assert known == old(known)[e.ip := old(known)[e.ip].(mac := e.mac, lastSeen := now)];
        log := log + [ChangedMac(now, e.ip, e.mac, oldMac, e.iface, claimed)];
      } else {
        known := known[e.ip := known[e.ip].(lastSeen := now)];
        assert log == log + [];
      }
    }

    /** `poll`, given the time and the table. */
    method Poll(now: string, table: seq<Entry>)
      modifies this
      ensures (View(), log) == (Watch(old(View()), At(now, table)).0, old(log) + Watch(old(View()), At(now, table)).1)
    {
      hide Sight;
      ghost var seen := At(now, table);
      assert seen[..0] == [] && log + [] == log;
      for n := 0 to |table|
        invariant (View(), log) == (Watch(old(View()), seen[..n]).0, old(log) + Watch(old(View()), seen[..n]).1)
      {
        assert seen[..n + 1][..n] == seen[..n];
        ghost var (before, events) := Watch(old(View()), seen[..n]);
        ghost var more := Sight(before, now, table[n]).1;
        Note(now, table[n]);
        assert old(log) + events + more == old(log) + (events + more);
      }
      assert seen[..|table|] == seen;
    }
  }

  // ---------- the log refines the state ----------

  type Macs = map<string, string>

  function MacsOf(s: State): Macs {
    map ip | ip in s.known :: s.known[ip].mac
  }

  function Replay(m: Macs, events: seq<Event>): Macs {
    if events == [] then m
    else
      var e := events[|events| - 1];
      Replay(m, events[..|events| - 1])[e.ip := e.mac]
  }

  /** A list of exactly the other addresses with a MAC, in order, comma-joined. */
  ghost predicate Claims(m: Macs, ip: string, mac: string, claimed: string) {
    exists parts :: IsListOfOthers(m, ip, mac, parts) && claimed == Join(parts, ", ")
  }

  ghost predicate IsListOfOthers(m: Macs, ip: string, mac: string, parts: seq<string>) {
    && Sorted(parts) && (forall i, j | 0 <= i < j < |parts| :: parts[i] != parts[j])
    && forall other :: other in parts <==> other in m && other != ip && m[other] == mac
  }

  /** What an event says is so at its point of the history. */
  ghost predicate Right(m: Macs, e: Event) {
    && Claims(m, e.ip, e.mac, e.claimed)
    && match e {
         case NewStation(_, ip, _, _, _) => ip !in m
         case ChangedMac(_, ip, mac, oldMac, _, _) => ip in m && m[ip] == oldMac && oldMac != mac
       }
  }

  ghost predicate AllRight(m: Macs, events: seq<Event>) {
    forall k | 0 <= k < |events| :: Right(Replay(m, events[..k]), events[k])
  }

  lemma {:induction false} OthersAre(order: seq<string>, known: map<string, Record>, ip: string, mac: string)
    requires forall i, j | 0 <= i < j < |order| :: order[i] != order[j]
    ensures var os := Others(order, known, ip, mac);
            && (forall other :: other in os <==> other in order && other in known && other != ip && known[other].mac == mac)
            && forall i, j | 0 <= i < j < |os| :: os[i] != os[j]
  {
    if order != [] { OthersAre(order[1..], known, ip, mac); }
  }

  lemma DistinctAsMultiset(a: seq<string>, b: seq<string>)
    requires multiset(a) == multiset(b) && forall i, j | 0 <= i < j < |a| :: a[i] != a[j]
    ensures forall i, j | 0 <= i < j < |b| :: b[i] != b[j]
    ensures forall x :: x in a <==> x in b
  {
    forall i, j | 0 <= i < j < |b| ensures b[i] != b[j] {
      if b[i] == b[j] {
        assert b == b[..j] + [b[j]] + b[j + 1..];
        assert b[i] in b[..j];
        assert multiset(b)[b[i]] >= 2;
        OnceEach(a, b[i]);
        assert false;
      }
    }
    assert forall x :: x in a <==> x in multiset(a);
  }

  lemma {:induction false} OnceEach(a: seq<string>, x: string)
    requires forall i, j | 0 <= i < j < |a| :: a[i] != a[j]
    ensures multiset(a)[x] <= 1
  {
    if a != [] {
      OnceEach(a[1..], x);
      assert a == [a[0]] + a[1..];
      assert a[0] == x ==> x !in a[1..];
    }
  }

  /** What `other_ips_with_mac` returns does not depend on the order of the dictionary. */
  lemma ClaimedAreOthers(s: State, ip: string, mac: string)
    requires Listed(s)
    ensures Claims(MacsOf(s), ip, mac, OtherIpsWithMac(s, ip, mac))
  {
    var os := Others(s.order, s.known, ip, mac);
    var parts := Sort(os);
    OthersAre(s.order, s.known, ip, mac);
    DistinctAsMultiset(os, parts);
    assert IsListOfOthers(MacsOf(s), ip, mac, parts);
  }

  /** There is one such list. */
  lemma ClaimsAreUnique(m: Macs, ip: string, mac: string, a: string, b: string)
    requires Claims(m, ip, mac, a) && Claims(m, ip, mac, b)
    ensures a == b
  {
    var x :| IsListOfOthers(m, ip, mac, x) && a == Join(x, ", ");
    var y :| IsListOfOthers(m, ip, mac, y) && b == Join(y, ", ");
    SameDistinct(x, y);
    SortedIsUnique(x, y);
  }

  /** Two dictionaries with the same addresses and MACs name the same claimants, in whatever order they were filled. */
  lemma ClaimedForgetsOrder(s: State, t: State, ip: string, mac: string)
    requires Listed(s) && Listed(t) && MacsOf(s) == MacsOf(t)
    ensures OtherIpsWithMac(s, ip, mac) == OtherIpsWithMac(t, ip, mac)
  {
    hide OtherIpsWithMac, Claims, Listed;
    ClaimedAreOthers(s, ip, mac);
    ClaimedAreOthers(t, ip, mac);
    ClaimsAreUnique(MacsOf(s), ip, mac, OtherIpsWithMac(s, ip, mac), OtherIpsWithMac(t, ip, mac));
  }

  lemma SameDistinct(x: seq<string>, y: seq<string>)
    requires forall i, j | 0 <= i < j < |x| :: x[i] != x[j]
    requires forall i, j | 0 <= i < j < |y| :: y[i] != y[j]
    requires forall z :: z in x <==> z in y
    ensures multiset(x) == multiset(y)
  {
    forall z ensures multiset(x)[z] == multiset(y)[z] {
      OnceEach(x, z);
      OnceEach(y, z);
      assert z in x <==> z in multiset(x);
      assert z in y <==> z in multiset(y);
    }
  }

  lemma SightLists(s: State, now: string, e: Entry)
    requires Listed(s)
    ensures Listed(Sight(s, now, e).0)
  {
    hide OtherIpsWithMac;
  }

  lemma SightIsRight(s: State, now: string, e: Entry)
    requires Listed(s)
    ensures var (t, events) := Sight(s, now, e);
            && |events| <= 1 && MacsOf(t) == MacsOf(s)[e.ip := e.mac]
            && (events == [] ==> MacsOf(t) == MacsOf(s))
            && (events != [] ==> events[0].ip == e.ip && events[0].mac == e.mac && Right(MacsOf(s), events[0]))
  {
    hide OtherIpsWithMac, Claims, Listed;
    ClaimedAreOthers(s, e.ip, e.mac);
  }

  /**
   The event log refines the state: over any sightings, replaying the events onto the initial addresses
   gives the current ones, and each event is right about the point at which it is replayed: a new station
   is unknown there, an old MAC is the one known there, and the claimants are exactly the others there.
   */
  lemma {:induction false} LogRefinesState(s: State, seen: seq<Sighting>)
    requires Listed(s)
    ensures var (t, events) := Watch(s, seen);
            Listed(t) && Replay(MacsOf(s), events) == MacsOf(t) && AllRight(MacsOf(s), events)
  {
    hide Sight, Right, Listed;
    if seen != [] {
      var last := seen[|seen| - 1];
      var (before, events) := Watch(s, seen[..|seen| - 1]);
      LogRefinesState(s, seen[..|seen| - 1]);
      SightLists(before, last.0, last.1);
      SightIsRight(before, last.0, last.1);
      var (after, more) := Sight(before, last.0, last.1);
      if more == [] {
        assert events + more == events;
      } else {
        assert events + more == events + [more[0]];
        Extended(MacsOf(s), events, more[0]);
      }
    }
  }

  lemma Extended(m: Macs, events: seq<Event>, e: Event)
    requires AllRight(m, events) && Right(Replay(m, events), e)
    ensures AllRight(m, events + [e]) && Replay(m, events + [e]) == Replay(m, events)[e.ip := e.mac]
  {
    hide Right;
    var all := events + [e];
    assert all[..|events|] == events;
    forall k | 0 <= k < |all| ensures Right(Replay(m, all[..k]), all[k]) {
      if k < |events| { assert all[..k] == events[..k]; }
    }
  }

  lemma {:induction false} ReplayKeeps(m: Macs, events: seq<Event>, ip: string)
    ensures ip in m || (exists k | 0 <= k < |events| :: events[k].ip == ip) ==> ip in Replay(m, events)
  {
    if events != [] { ReplayKeeps(m, events[..|events| - 1], ip); }
  }

  /** Each address has at most one new_station, and none if it was known at the start. */
  lemma OneNewStation(s: State, seen: seq<Sighting>, i: nat, j: nat)
    requires Listed(s) && i < j < |Watch(s, seen).1|
    ensures var events := Watch(s, seen).1;
            events[j].NewStation? ==> events[j].ip !in s.known && events[j].ip != events[i].ip
  {
    hide Watch;
    LogRefinesState(s, seen);
    var events := Watch(s, seen).1;
    assert events[..j][i] == events[i];
    ReplayKeeps(MacsOf(s), events[..j], events[j].ip);
    assert Right(Replay(MacsOf(s), events[..j]), events[j]);
  }

  /** An address gets a new_station exactly if it was unknown at the start and is known at the end. */
  lemma NewIffFirstSeen(s: State, seen: seq<Sighting>, ip: string)
    requires Listed(s)
    ensures var (t, events) := Watch(s, seen);
            (ip !in s.known && ip in t.known) <==> exists k | 0 <= k < |events| :: events[k].NewStation? && events[k].ip == ip
  {
    LogRefinesState(s, seen);
    var (t, events) := Watch(s, seen);
    if ip !in s.known && ip in t.known {
      FirstAppearance(MacsOf(s), events, ip);
    }
    if k: nat :| k < |events| && events[k].NewStation? && events[k].ip == ip {
      assert Right(Replay(MacsOf(s), events[..k]), events[k]);
      ReplayKeeps(MacsOf(s), events[..k], ip);
      ReplayKeeps(MacsOf(s), events, ip);
    }
  }

  lemma {:induction false} FirstAppearance(m: Macs, events: seq<Event>, ip: string)
    requires AllRight(m, events) && ip !in m && ip in Replay(m, events)
    ensures exists k | 0 <= k < |events| :: events[k].NewStation? && events[k].ip == ip
  {
    hide Claims;
    var n := |events| - 1;
    var init := events[..n];
    assert Right(Replay(m, init), events[n]);
    if ip in Replay(m, init) {
      assert forall k | 0 <= k < n :: init[..k] == events[..k] && init[k] == events[k];
      FirstAppearance(m, init, ip);
      var k :| 0 <= k < |init| && init[k].NewStation? && init[k].ip == ip;
      assert events[k] == init[k];
    }
  }

  /** After a poll each address of the table has its MAC, and the others are as before. */
  lemma {:induction false} PollRecords(s: State, now: string, table: seq<Entry>, ip: string)
    requires Listed(s) && DistinctIps(table)
    ensures var m := MacsOf(Watch(s, At(now, table)).0);
            if Get(table, ip).Some? then ip in m && m[ip] == Get(table, ip).value.mac
            else (ip in m <==> ip in s.known) && (ip in m ==> m[ip] == s.known[ip].mac)
    decreases |table|
  {
    hide Sight, Listed;
    if table != [] {
      var n := |table| - 1;
      assert At(now, table)[..n] == At(now, table[..n]);
      PollRecords(s, now, table[..n], ip);
      LogRefinesState(s, At(now, table[..n]));
      SightIsRight(Watch(s, At(now, table[..n])).0, now, table[n]);
      GetSnoc(table, ip);
    }
  }

  lemma {:induction false} GetSnoc(table: seq<Entry>, ip: string)
    requires table != [] && DistinctIps(table)
    ensures var n := |table| - 1;
            Get(table, ip) == if table[n].ip == ip then Some(table[n]) else Get(table[..n], ip)
    ensures Get(table[..|table| - 1], table[|table| - 1].ip) == None
  {
    var n := |table| - 1;
    if n > 0 {
      GetSnoc(table[1..], ip);
      assert table[1..][..n - 1] == table[..n][1..];
    }
  }
}
