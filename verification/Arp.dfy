/**
 The ARP cache inside `ArpWhoIs` (`src/arp.c`): ageing use counters, a hit that rejuvenates its
 entry, and the choice of the entry to overwrite. The wire exchange is the `reply` a lookup gets.
 */
module Arp {
  import opened Util
  import opened Addresses

  /** One row of `arpCache`; a row with `useCount` 0 is free. */
  datatype Entry = Entry(mac: Mac, ip: Ip, useCount: byte)

  predicate Live(e: Entry) { e.useCount > 0 }

  predicate Holds(e: Entry, ip: Ip) { Live(e) && e.ip == ip }

  function Older(e: Entry): Entry
  {
    if e.useCount > 0 then e.(useCount := e.useCount as int - 1) else e
  }

  function Used(e: Entry): Entry
  {
    e.(useCount := if 255 - e.useCount as int >= 2 then e.useCount as int + 2 else 255)
  }

  function Stored(e: Entry, ip: Ip, mac: Mac): Entry
  {
    Entry(mac, ip, if e.useCount == 0 then 2 else e.useCount)
  }

  /** The first row among the first `n` that holds `ip`, or `n`. */
  function Holder(es: seq<Entry>, ip: Ip, n: nat): (h: nat)
    requires n <= |es|
    ensures h <= n && (h < n ==> Holds(es[h], ip))
    ensures forall k | 0 <= k < h :: !Holds(es[k], ip)
  {
    if n == 0 then 0
    else
      var h := Holder(es, ip, n - 1);
      if h < n - 1 then h else if Holds(es[n - 1], ip) then n - 1 else n
  }

  predicate Cached(es: seq<Entry>, ip: Ip) { Holder(es, ip, |es|) < |es| }

  /** The table after the search loop: the row found is used, every other row grows older. */
  function Aged(es: seq<Entry>, ip: Ip): (r: seq<Entry>)
    ensures |r| == |es|
  {
    seq(|es|, k requires 0 <= k < |es| => if k == Holder(es, ip, |es|) then Used(es[k]) else Older(es[k]))
  }

  /** The first row with the largest counter. */
  ghost predicate MostUsed(es: seq<Entry>, v: nat) { MostUsedOf(es, |es|, v) }

  /** The same among the first `n` rows. */
  ghost predicate MostUsedOf(es: seq<Entry>, n: nat, v: nat)
  {
    v < n <= |es|
    && (forall k | 0 <= k < n :: es[k].useCount <= es[v].useCount)
    && (forall k | 0 <= k < v :: es[k].useCount < es[v].useCount)
  }

  /** One more row to choose from. */
  lemma MostUsedStep(es: seq<Entry>, i: nat, v: nat, e: Entry)
    requires i < |es| && v < |es| && (if i == 0 then v == 0 else MostUsedOf(es, i, v))
    ensures var es' := es[i := e];
            MostUsedOf(es', i + 1, if es'[v].useCount < e.useCount then i else v)
  {
  }

  /** The table in the middle of the search loop: `h` is the row found so far, or `i`. */
  ghost predicate HalfAged(before: seq<Entry>, h: nat, i: nat, es: seq<Entry>)
    requires |before| == |es|
  {
    (forall k | 0 <= k < |es| ::
        es[k] == if i <= k then before[k] else if k == h then Used(before[k]) else Older(before[k]))
  }

  /** One turn of the loop: row `i` is used if it is the one found, and grows older otherwise. */
  lemma HalfAgedStep(before: seq<Entry>, ip: Ip, i: nat, es: seq<Entry>, es': seq<Entry>)
    requires |before| == |es| && i < |es| && HalfAged(before, Holder(before, ip, i), i, es)
    requires es' == es[i := if Holder(before, ip, i + 1) == i then Used(es[i]) else Older(es[i])]
    ensures HalfAged(before, Holder(before, ip, i + 1), i + 1, es')
    ensures es[i] == before[i]
  {
  }

  lemma HalfAgedEnd(before: seq<Entry>, ip: Ip, es: seq<Entry>)
    requires |before| == |es| && HalfAged(before, Holder(before, ip, |es|), |es|, es)
    ensures es == Aged(before, ip)
  {
  }

  /** Live rows have distinct addresses and say what was learned last. */
  ghost predicate Agrees(es: seq<Entry>, learned: map<Ip, Mac>)
  {
    (forall k | 0 <= k < |es| && Live(es[k]) :: es[k].ip in learned && learned[es[k].ip] == es[k].mac)
    && (forall j, k | 0 <= j < k < |es| && Live(es[j]) && Live(es[k]) :: es[j].ip != es[k].ip)
  }

  /** One whole `ArpWhoIs`; `victim` is the row the search loop chose. */
  datatype Lookup = Lookup(ip: Ip, reply: Option<Mac>, victim: nat)

  predicate Overwrites(es: seq<Entry>, l: Lookup) { !Cached(es, l.ip) && l.reply.Some? }

  ghost predicate Possible(es: seq<Entry>, l: Lookup) { Overwrites(es, l) ==> MostUsed(Aged(es, l.ip), l.victim) }

  function After(es: seq<Entry>, l: Lookup): (r: seq<Entry>)
    ensures |r| == |es|
  {
    var aged := Aged(es, l.ip);
    if Overwrites(es, l) && l.victim < |es| then aged[l.victim := Stored(aged[l.victim], l.ip, l.reply.value)] else aged
  }

  function Resolve(es: seq<Entry>, l: Lookup): Option<Mac>
  {
    var h := Holder(es, l.ip, |es|);
    if h < |es| then Some(es[h].mac) else l.reply
  }

  /** The plain map: a miss answered by the wire is remembered, nothing else changes it. */
  function Learn(es: seq<Entry>, learned: map<Ip, Mac>, l: Lookup): map<Ip, Mac>
  {
    if Overwrites(es, l) then learned[l.ip := l.reply.value] else learned
  }

  lemma AgedAgrees(es: seq<Entry>, learned: map<Ip, Mac>, ip: Ip)
    requires Agrees(es, learned)
    ensures Agrees(Aged(es, ip), learned)
    ensures !Cached(es, ip) ==> forall k | 0 <= k < |es| :: !Holds(Aged(es, ip)[k], ip)
  {
    var aged := Aged(es, ip);
    assert forall k | 0 <= k < |es| && Live(aged[k]) ::
        Live(es[k]) && aged[k].ip == es[k].ip && aged[k].mac == es[k].mac;
  }

  /** One lookup keeps the agreement, and a hit answers from the map. */
  lemma LookupAgrees(es: seq<Entry>, learned: map<Ip, Mac>, l: Lookup)
    requires Agrees(es, learned) && Possible(es, l)
    ensures Agrees(After(es, l), Learn(es, learned, l))
    ensures Resolve(es, l) == if Cached(es, l.ip) then Some(Learn(es, learned, l)[l.ip]) else l.reply
  {
    AgedAgrees(es, learned, l.ip);
    if Overwrites(es, l) {
      var aged, after := Aged(es, l.ip), After(es, l);
      assert forall k | 0 <= k < |es| && k != l.victim :: after[k] == aged[k];
    }
  }

  /** After any success the very next lookup of the same address hits, with the same answer. */
  lemma RepeatedLookupHits(es: seq<Entry>, learned: map<Ip, Mac>, l: Lookup, next: Lookup)
    requires Agrees(es, learned) && Possible(es, l)
    requires Resolve(es, l).Some? && next.ip == l.ip
    ensures Cached(After(es, l), l.ip) && Resolve(After(es, l), next) == Resolve(es, l)
  {
    LookupAgrees(es, learned, l);
    var h := Holder(es, l.ip, |es|);
    var row := if h < |es| then h else l.victim;
    assert Holds(After(es, l)[row], l.ip);
    var h' := Holder(After(es, l), l.ip, |es|);
    assert Learn(es, learned, l)[l.ip] == After(es, l)[h'].mac == After(es, l)[row].mac;
  }

  // ----- whole runs --------------------------------------------------------------------------

  /** The table after a run of lookups from `es`. */
  function Table(es: seq<Entry>, run: seq<Lookup>): seq<Entry>
  {
    if run == [] then es else After(Table(es, run[..|run| - 1]), run[|run| - 1])
  }

  function LastLearned(es: seq<Entry>, run: seq<Lookup>): map<Ip, Mac>
  {
    if run == [] then map[]
    else
      var earlier := run[..|run| - 1];
      Learn(Table(es, earlier), LastLearned(es, earlier), run[|run| - 1])
  }

  ghost predicate PossibleRun(es: seq<Entry>, run: seq<Lookup>)
  {
    run == [] ||
    (PossibleRun(es, run[..|run| - 1]) && Possible(Table(es, run[..|run| - 1]), run[|run| - 1]))
  }

  ghost predicate Initial(es: seq<Entry>) { forall k | 0 <= k < |es| :: es[k].useCount == 0 }

  /** Over every run from `ArpInit` the table agrees with the plain map of what was learned last. */
  lemma {:induction false} RunAgrees(es: seq<Entry>, run: seq<Lookup>)
    requires Initial(es) && PossibleRun(es, run)
    ensures Agrees(Table(es, run), LastLearned(es, run))
  {
    if run != [] {
      var earlier := run[..|run| - 1];
      RunAgrees(es, earlier);
      LookupAgrees(Table(es, earlier), LastLearned(es, earlier), run[|run| - 1]);
    }
  }

  /** Hence a hit, at any point of any run, answers with the address learned last. */
  lemma HitIsLastLearned(es: seq<Entry>, run: seq<Lookup>, l: Lookup)
    requires Initial(es) && PossibleRun(es, run) && Cached(Table(es, run), l.ip)
    ensures l.ip in LastLearned(es, run) && Resolve(Table(es, run), l) == Some(LastLearned(es, run)[l.ip])
  {
    RunAgrees(es, run);
  }

  // ----- the code ----------------------------------------------------------------------------

  class ArpCache {
    /** `arpCache`, NET_ARP_CACHE_SIZE rows. */
    const rows: array<Entry>

    ghost predicate Valid() { 0 < rows.Length <= 255 }

    /** `ArpInit`: the counters are cleared, the rest of static memory is zero. */
    constructor (size: nat)
      requires 0 < size <= 255
      ensures Valid() && fresh(rows) && rows.Length == size
      ensures Initial(rows[..])
    {
      rows := new Entry[size](i => Entry([0, 0, 0, 0, 0, 0], [0, 0, 0, 0], 0));
    }

    /** The search loop of `ArpWhoIs`. */
    method Search(ip: Ip) returns (found: bool, mac: Mac, victim: nat)
      requires Valid()
      modifies rows
      ensures rows[..] == Aged(old(rows[..]), ip)
      ensures found <==> Cached(old(rows[..]), ip)
      ensures found ==> mac == old(rows[..])[Holder(old(rows[..]), ip, rows.Length)].mac
      ensures !found ==> MostUsed(rows[..], victim)
      ensures victim < rows.Length
    {
      ghost var before, h := rows[..], 0;
      found, mac, victim := false, [0, 0, 0, 0, 0, 0], 0;
      assert HalfAged(before, h, 0, rows[..]);
      hide Aged, HalfAged, MostUsedOf;
      var i := 0;
      while i < rows.Length
        invariant 0 <= i <= rows.Length && victim < rows.Length
        invariant h == Holder(before, ip, i) && HalfAged(before, h, i, rows[..])
        invariant found <==> h < i
        invariant found ==> mac == before[h].mac
        invariant !found ==> (if i == 0 then victim == 0 else MostUsedOf(rows[..], i, victim))
      {
        ghost var es, chosen := rows[..], victim;
        HalfAgedStep(before, ip, i, es, es[i := if Holder(before, ip, i + 1) == i then Used(es[i]) else Older(es[i])]);
        ghost var next := Holder(before, ip, i + 1);
        assert next == if h < i then h else if Holds(before[i], ip) then i else i + 1;
        if !found && rows[i].useCount > 0 && rows[i].ip == ip {
          mac := rows[i].mac;
          rows[i] := Used(rows[i]);
          found := true;
        } else {
          if rows[i].useCount > 0 {
            rows[i] := Older(rows[i]);
          }
          if rows[victim].useCount < rows[i].useCount {
            victim := i;
          }
        }
        assert rows[..] == es[i := if i == next then Used(es[i]) else Older(es[i])];
        if !found { MostUsedStep(es, i, chosen, rows[i]); }
        i, h := i + 1, next;
      }
      HalfAgedEnd(before, ip, rows[..]);
    }

    /** The insertion after a reply. */
    method Store(victim: nat, ip: Ip, mac: Mac)
      requires Valid() && victim < rows.Length
      modifies rows
      ensures rows[..] == old(rows[..])[victim := Stored(old(rows[victim]), ip, mac)]
    {
      rows[victim] := rows[victim].(mac := mac);
      rows[victim] := rows[victim].(ip := ip);
      if rows[victim].useCount == 0 {
        rows[victim] := rows[victim].(useCount := 2);
      }
    }

    /** `ArpWhoIs` when nothing else runs while it waits for the reply. */
    method WhoIs(ip: Ip, reply: Option<Mac>) returns (answer: Option<Mac>, ghost l: Lookup)
      requires Valid()
      modifies rows
      ensures l.ip == ip && l.reply == reply && Possible(old(rows[..]), l)
      ensures rows[..] == After(old(rows[..]), l) && answer == Resolve(old(rows[..]), l)
    {
      var found, mac, victim := Search(ip);
      l := Lookup(ip, reply, victim);
      if found {
        return Some(mac), l;
      }
      if reply == None {
        return None, l;
      }
      Store(victim, ip, reply.value);
      answer := reply;
    }
  }
}
