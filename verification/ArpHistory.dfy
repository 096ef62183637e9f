/** What the ARP monitor reads of a line, and what its records say of the past. */
module ArpHistory {
  import opened Text
  import opened ArpMonitor

  // ---------- the columns of the table ----------

  function Blanks(n: nat): string {
    if n == 0 then "" else " " + Blanks(n - 1)
  }

  /** Columns padded with blanks. */
  function Columns(ts: seq<string>, gaps: seq<nat>): string
    requires |gaps| == |ts|
  {
    if ts == [] then "" else ts[0] + " " + Blanks(gaps[0]) + Columns(ts[1..], gaps[1..])
  }

  lemma {:induction false} WordsPastBlanks(n: nat, rest: string)
    ensures Words(Blanks(n) + rest) == Words(rest)
  {
    if n == 0 {
      assert Blanks(n) + rest == rest;
    } else {
      assert (Blanks(n) + rest)[1..] == Blanks(n - 1) + rest;
      WordsPastBlanks(n - 1, rest);
    }
  }

  lemma {:induction false} WordsOfColumns(ts: seq<string>, gaps: seq<nat>)
    requires |gaps| == |ts| && Tokens(ts)
    ensures Words(Columns(ts, gaps)) == ts
  {
    hide Words;
    if ts == [] {
      assert Words("") == [] by { NoWords(); }
    } else {
      assert ts[0] in ts;
      var rest := Columns(ts[1..], gaps[1..]);
      var padded := Blanks(gaps[0] + 1) + rest;
      assert Columns(ts, gaps) == ts[0] + padded;
      FirstWord(ts[0], padded);
      WordsPastBlanks(gaps[0] + 1, rest);
      WordsOfColumns(ts[1..], gaps[1..]);
    }
  }

  lemma NoWords()
    ensures Words("") == []
  {
  }

  /**
   A line of the kernel's table, however its columns are padded: address, hardware type, flags, hardware
   address, mask and device. It is an entry unless the flags say that it is not resolved.
   */
  lemma LineIsEntry(ip: string, hwType: string, flags: string, mac: string, mask: string, device: string, gaps: seq<nat>)
    requires Tokens([ip, hwType, flags, mac, mask, device]) && |gaps| == 6
    ensures ReadLine(Columns([ip, hwType, flags, mac, mask, device], gaps)) == if flags == "0x0" then None else Some(Entry(ip, mac, device))
  {
    hide Words, Columns;
    WordsOfColumns([ip, hwType, flags, mac, mask, device], gaps);
  }

  /** A line with fewer columns is no entry. */
  lemma ShortLineIsNone(ts: seq<string>, gaps: seq<nat>)
    requires Tokens(ts) && |ts| < 6 && |gaps| == |ts|
    ensures ReadLine(Columns(ts, gaps)) == None
  {
    hide Words, Columns;
    WordsOfColumns(ts, gaps);
  }

  /** A complete line about an address, with no other behind it. */
  predicate IsLastAbout(lines: seq<string>, ip: string, n: nat) {
    && n < |lines| && ReadLine(lines[n]).Some? && ReadLine(lines[n]).value.ip == ip
    && forall m | n < m < |lines| :: ReadLine(lines[m]).Some? ==> ReadLine(lines[m]).value.ip != ip
  }

  /** What the table holds for an address: the entry of its last complete line, or nothing if it has none. */
  lemma {:induction false} LastAboutIs(lines: seq<string>, ip: string)
    ensures var e := LastAbout(lines, ip, None);
            && (e.Some? ==> exists n: nat :: IsLastAbout(lines, ip, n) && ReadLine(lines[n]) == e)
            && (e.None? ==> forall n | 0 <= n < |lines| :: ReadLine(lines[n]).Some? ==> ReadLine(lines[n]).value.ip != ip)
  {
    hide ReadLine;
    if lines != [] {
      var k := |lines| - 1;
      var last := ReadLine(lines[k]);
      if last.Some? && last.value.ip == ip {
        assert IsLastAbout(lines, ip, k);
      } else {
        LastAboutIs(lines[..k], ip);
        if LastAbout(lines, ip, None).Some? {
          var n: nat :| IsLastAbout(lines[..k], ip, n) && ReadLine(lines[..k][n]) == LastAbout(lines, ip, None);
          forall m | n < m < |lines| ensures ReadLine(lines[m]).Some? ==> ReadLine(lines[m]).value.ip != ip {
            if m < k { assert lines[..k][m] == lines[m]; }
          }
          assert IsLastAbout(lines, ip, n);
        } else {
          forall n | 0 <= n < |lines| ensures ReadLine(lines[n]).Some? ==> ReadLine(lines[n]).value.ip != ip {
            if n < k { assert lines[..k][n] == lines[n]; }
          }
        }
      }
    }
  }

  // ---------- what the records remember ----------

  function FirstOf(seen: seq<Sighting>, ip: string): Option<Sighting> {
    if seen == [] then None else if seen[0].1.ip == ip then Some(seen[0]) else FirstOf(seen[1..], ip)
  }

  function LastOf(seen: seq<Sighting>, ip: string): Option<Sighting> {
    if seen == [] then None
    else if seen[|seen| - 1].1.ip == ip then Some(seen[|seen| - 1]) else LastOf(seen[..|seen| - 1], ip)
  }

  lemma {:induction false} FirstOfSnoc(seen: seq<Sighting>, x: Sighting, ip: string)
    ensures FirstOf(seen + [x], ip)
         == if FirstOf(seen, ip).Some? then FirstOf(seen, ip) else if x.1.ip == ip then Some(x) else None
  {
    if seen == [] {
      assert [x][1..] == [];
    } else {
      assert (seen + [x])[1..] == seen[1..] + [x];
      FirstOfSnoc(seen[1..], x, ip);
    }
  }

  /** A record: as it was at the start or as first sighted, with the hardware address and time of the last sighting. */
  predicate Remembers(before: Option<Record>, first: Sighting, last: Sighting, r: Record) {
    && r.mac == last.1.mac && r.lastSeen == last.0
    && r.iface == (if before.Some? then before.value.iface else first.1.iface)
    && r.firstSeen == (if before.Some? then before.value.firstSeen else first.0)
  }

  function RecordOf(s: State, ip: string): Option<Record> {
    if ip in s.known then Some(s.known[ip]) else None
  }

  lemma SightRecords(s: State, now: string, e: Entry, ip: string)
    ensures var r := RecordOf(Sight(s, now, e).0, ip);
            if e.ip == ip then r.Some? && Remembers(RecordOf(s, ip), (now, e), (now, e), r.value) else r == RecordOf(s, ip)
  {
    hide OtherIpsWithMac;
  }

  /** Over any sightings each record remembers the first and the last of its address, and others are untouched. */
  lemma {:induction false} RecordsRemember(s: State, seen: seq<Sighting>, ip: string)
    ensures FirstOf(seen, ip).Some? <==> LastOf(seen, ip).Some?
    ensures var r := RecordOf(Watch(s, seen).0, ip);
            if FirstOf(seen, ip).None? then r == RecordOf(s, ip)
            else r.Some? && Remembers(RecordOf(s, ip), FirstOf(seen, ip).value, LastOf(seen, ip).value, r.value)
  {
    hide Sight, RecordOf;
    if seen != [] {
      var front, x := seen[..|seen| - 1], seen[|seen| - 1];
      assert seen == front + [x];
      RecordsRemember(s, front, ip);
      FirstOfSnoc(front, x, ip);
      SightRecords(Watch(s, front).0, x.0, x.1, ip);
    }
  }

  /** Every event is about a sighting: its time, address, hardware address and device. */
  lemma {:induction false} EventsAreSightings(s: State, seen: seq<Sighting>, k: nat)
    requires k < |Watch(s, seen).1|
    ensures var e := Watch(s, seen).1[k]; exists x :: x in seen && e.at == x.0 && e.ip == x.1.ip && e.mac == x.1.mac && e.iface == x.1.iface
  {
    hide OtherIpsWithMac;
    var front, x := seen[..|seen| - 1], seen[|seen| - 1];
    var (before, events) := Watch(s, front);
    if k < |events| {
      EventsAreSightings(s, front, k);
      var y :| y in front && events[k].at == y.0 && events[k].ip == y.1.ip && events[k].mac == y.1.mac && events[k].iface == y.1.iface;
      assert y in seen;
    } else {
      assert x in seen;
    }
  }
}
